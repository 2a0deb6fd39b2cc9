/** Candidate providers, and what grouping, rotation and deduplication do to lists of them. */
module Providers {
  import opened Collections

  /** One candidate of a request. `chain` is the position of the virtual-chain node it stands
      for, None outside a virtual route; `upstream` the model name it is asked for. */
  datatype Provider = Provider(name: string, weight: int, chain: Option<nat>, byok: bool, upstream: string) {
    predicate Virtual() { chain.Some? }

    // `int(provider.get("_virtual_priority", 0) or 0)`
    function Priority(): nat { chain.GetOr(0) }
  }

  function Names(ps: seq<Provider>): (r: seq<string>)
    ensures |r| == |ps| && forall i :: 0 <= i < |ps| ==> r[i] == ps[i].name
  {
    seq(|ps|, i requires 0 <= i < |ps| => ps[i].name)
  }

  ghost predicate DistinctNames(ps: seq<Provider>) {
    forall i, j :: 0 <= i < j < |ps| ==> ps[i].name != ps[j].name
  }

  ghost predicate ByPriority(ps: seq<Provider>) {
    forall i, j :: 0 <= i < j < |ps| ==> ps[i].Priority() <= ps[j].Priority()
  }

  // ---------- first occurrences ----------

  // Where `name` first occurs, or the length.
  function FirstIndex(ps: seq<Provider>, name: string): (r: nat)
    ensures r <= |ps|
    ensures r < |ps| ==> ps[r].name == name
    ensures forall i :: 0 <= i < r ==> ps[i].name != name
  {
    if ps == [] then 0
    else
      var r := FirstIndex(ps[..|ps| - 1], name);
      if r < |ps| - 1 || ps[|ps| - 1].name == name then r else |ps|
  }

  predicate HasName(ps: seq<Provider>, name: string) {
    FirstIndex(ps, name) < |ps|
  }

  lemma HasNameMeans(ps: seq<Provider>, name: string)
    ensures HasName(ps, name) <==> exists i :: 0 <= i < |ps| && ps[i].name == name
  {
  }

  function FirstByName(ps: seq<Provider>): seq<Provider> {
    if ps == [] then []
    else
      var init, last := ps[..|ps| - 1], ps[|ps| - 1];
      if HasName(init, last.name) then FirstByName(init) else FirstByName(init) + [last]
  }

  /** The deduplicated list holds each name of the slots exactly once, by its first slot, in the
      order of the first slots. */
  ghost predicate FirstOccurrences(ps: seq<Provider>, unique: seq<Provider>) {
    && (forall i :: 0 <= i < |unique| ==>
      FirstIndex(ps, unique[i].name) < |ps| && unique[i] == ps[FirstIndex(ps, unique[i].name)])
    && (forall i, j :: 0 <= i < j < |unique| ==> FirstIndex(ps, unique[i].name) < FirstIndex(ps, unique[j].name))
    && (forall k :: 0 <= k < |ps| ==> HasName(unique, ps[k].name))
  }

  lemma FirstIndexAppend(ps: seq<Provider>, last: Provider, name: string)
    ensures FirstIndex(ps + [last], name) ==
      if HasName(ps, name) then FirstIndex(ps, name) else if last.name == name then |ps| else |ps| + 1
  {
    assert (ps + [last])[..|ps|] == ps;
  }

  lemma {:induction false} FirstByNameFacts(ps: seq<Provider>)
    ensures FirstOccurrences(ps, FirstByName(ps))
  {
    if ps != [] {
      var init, last := ps[..|ps| - 1], ps[|ps| - 1];
      assert ps == init + [last];
      FirstByNameFacts(init);
      FirstAppended(init, last);
    }
  }

  lemma FirstAppended(init: seq<Provider>, last: Provider)
    requires FirstOccurrences(init, FirstByName(init))
    ensures FirstOccurrences(init + [last],
      if HasName(init, last.name) then FirstByName(init) else FirstByName(init) + [last])
  {
    hide FirstIndex, FirstByName;
    var ps, before := init + [last], FirstByName(init);
    var unique := if HasName(init, last.name) then before else before + [last];
    forall i | 0 <= i < |unique|
      ensures FirstIndex(ps, unique[i].name) == (if i < |before| then FirstIndex(init, before[i].name) else |init|)
    {
      FirstIndexAppend(init, last, unique[i].name);
    }
    forall k | 0 <= k < |ps|
      ensures HasName(unique, ps[k].name)
    {
      if k < |init| {
        assert HasName(before, init[k].name);
      } else if HasName(init, last.name) {
        assert HasName(before, init[FirstIndex(init, last.name)].name);
      }
      if !HasName(init, last.name) { FirstIndexAppend(before, last, ps[k].name); }
    }
  }

  lemma UniqueNames(ps: seq<Provider>, unique: seq<Provider>)
    requires FirstOccurrences(ps, unique)
    ensures DistinctNames(unique)
    ensures forall p :: p in unique ==> p in ps
    ensures forall name :: HasName(unique, name) <==> HasName(ps, name)
    ensures ps != [] ==> unique != [] && unique[0] == ps[0]
  {
    hide FirstIndex;
    forall name
      ensures HasName(unique, name) <==> HasName(ps, name)
    {
      if HasName(ps, name) { assert ps[FirstIndex(ps, name)].name == name; }
      if HasName(unique, name) { assert unique[FirstIndex(unique, name)].name == name; }
    }
    if ps != [] {
      var i := FirstIndex(unique, ps[0].name);
      assert HasName(unique, ps[0].name);
      assert FirstIndex(ps, ps[0].name) == 0;
    }
  }

  lemma FirstByNameAppend(ps: seq<Provider>, last: Provider)
    ensures FirstByName(ps + [last]) == if HasName(ps, last.name) then FirstByName(ps) else FirstByName(ps) + [last]
    ensures forall name :: HasName(ps + [last], name) <==> HasName(ps, name) || name == last.name
  {
    hide FirstIndex;
    assert (ps + [last])[..|ps|] == ps;
    forall name
      ensures HasName(ps + [last], name) <==> HasName(ps, name) || name == last.name
    {
      FirstIndexAppend(ps, last, name);
    }
  }

  // Two lists deduplicate alike when put one after the other.
  lemma {:induction false} FirstByNameSkips(ps: seq<Provider>, more: seq<Provider>)
    ensures FirstByName(ps + more) == FirstByName(FirstByName(ps) + more)
  {
    hide FirstByName, HasName, FirstOccurrences;
    FirstByNameFacts(ps);
    UniqueNames(ps, FirstByName(ps));
    if more == [] {
      assert ps + more == ps && FirstByName(ps) + more == FirstByName(ps);
      AlreadyUnique(FirstByName(ps));
    } else {
      var init, last := more[..|more| - 1], more[|more| - 1];
      FirstByNameSkips(ps, init);
      assert ps + more == ps + init + [last];
      FirstByNameAppend(ps + init, last);
      assert FirstByName(ps) + more == FirstByName(ps) + init + [last];
      FirstByNameAppend(FirstByName(ps) + init, last);
      SameNames(ps, FirstByName(ps), init, last.name);
    }
  }

  lemma SameNames(a: seq<Provider>, b: seq<Provider>, more: seq<Provider>, name: string)
    requires HasName(a, name) <==> HasName(b, name)
    ensures HasName(a + more, name) <==> HasName(b + more, name)
  {
    HasNameConcat(a, more, name);
    HasNameConcat(b, more, name);
  }

  lemma HasNameConcat(a: seq<Provider>, b: seq<Provider>, name: string)
    ensures HasName(a + b, name) <==> HasName(a, name) || HasName(b, name)
  {
    hide FirstIndex;
    var c := a + b;
    if HasName(a, name) { assert c[FirstIndex(a, name)].name == name; }
    if HasName(b, name) { assert c[|a| + FirstIndex(b, name)].name == name; }
    if HasName(c, name) {
      var i := FirstIndex(c, name);
      assert if i < |a| then a[i].name == name else b[i - |a|].name == name;
    }
  }

  lemma {:induction false} AlreadyUnique(ps: seq<Provider>)
    requires DistinctNames(ps)
    ensures FirstByName(ps) == ps
  {
    if ps != [] {
      AlreadyUnique(ps[..|ps| - 1]);
    }
  }

  // Deduplication keeps a list in priority order.
  lemma FirstKeepsPriority(ps: seq<Provider>, unique: seq<Provider>)
    requires FirstOccurrences(ps, unique) && ByPriority(ps)
    ensures ByPriority(unique)
    ensures forall i, k :: 0 <= i < |unique| && 0 <= k < |ps| && ps[k].name == unique[i].name ==>
      unique[i].Priority() <= ps[k].Priority()
  {
    hide FirstIndex;
    forall i, k | 0 <= i < |unique| && 0 <= k < |ps| && ps[k].name == unique[i].name
      ensures unique[i].Priority() <= ps[k].Priority()
    {
      var f := FirstIndex(ps, unique[i].name);
      assert f <= k;
      if f < k { assert ps[f].Priority() <= ps[k].Priority(); }
    }
  }

  // ---------- priority groups ----------

  function Group(ps: seq<Provider>, priority: nat): seq<Provider> {
    if ps == [] then []
    else
      var init, last := Group(ps[..|ps| - 1], priority), ps[|ps| - 1];
      if last.Priority() == priority then init + [last] else init
  }

  function Inserted(sorted: seq<nat>, n: nat): seq<nat> {
    if sorted == [] || n < sorted[0] then [n] + sorted
    else if n == sorted[0] then sorted
    else [sorted[0]] + Inserted(sorted[1..], n)
  }

  // `sorted(priority_groups.keys())`
  function Priorities(ps: seq<Provider>): seq<nat> {
    if ps == [] then [] else Inserted(Priorities(ps[..|ps| - 1]), ps[|ps| - 1].Priority())
  }

  ghost predicate Ascending(s: seq<nat>) {
    forall i, j :: 0 <= i < j < |s| ==> s[i] < s[j]
  }

  lemma {:induction false} InsertedFacts(sorted: seq<nat>, n: nat)
    requires Ascending(sorted)
    ensures Ascending(Inserted(sorted, n))
    ensures forall x :: x in Inserted(sorted, n) <==> x in sorted || x == n
  {
    if !(sorted == [] || n <= sorted[0]) {
      RestAscends(sorted);
      InsertedFacts(sorted[1..], n);
      assert forall x :: x in sorted <==> x == sorted[0] || x in sorted[1..];
      HeadAscends(sorted[0], Inserted(sorted[1..], n));
    } else if sorted != [] && n < sorted[0] {
      HeadAscends(n, sorted);
    }
  }

  lemma RestAscends(sorted: seq<nat>)
    requires Ascending(sorted) && sorted != []
    ensures Ascending(sorted[1..]) && forall x :: x in sorted[1..] ==> x > sorted[0]
  {
  }

  lemma HeadAscends(first: nat, rest: seq<nat>)
    requires Ascending(rest) && (rest != [] ==> first < rest[0] || forall x :: x in rest ==> x > first)
    ensures Ascending([first] + rest)
  {
    forall j | 0 <= j < |rest|
      ensures first < rest[j]
    {
      if j > 0 { assert rest[0] < rest[j]; }
      assert rest[j] in rest && rest[0] in rest;
    }
  }

  lemma {:induction false} PrioritiesFacts(ps: seq<Provider>)
    ensures Ascending(Priorities(ps))
    ensures forall x :: x in Priorities(ps) <==> exists i :: 0 <= i < |ps| && ps[i].Priority() == x
  {
    if ps != [] {
      var init := ps[..|ps| - 1];
      PrioritiesFacts(init);
      InsertedFacts(Priorities(init), ps[|ps| - 1].Priority());
      assert forall i :: 0 <= i < |init| ==> init[i] == ps[i];
    }
  }

  lemma {:induction false} GroupFacts(ps: seq<Provider>, priority: nat)
    ensures forall p :: p in Group(ps, priority) <==> p in ps && p.Priority() == priority
  {
    if ps != [] {
      var init := ps[..|ps| - 1];
      GroupFacts(init, priority);
      assert forall p :: p in ps <==> p in init || p == ps[|ps| - 1];
    }
  }

  // The groups of a list, in ascending priority.
  function Groups(ps: seq<Provider>): seq<seq<Provider>> {
    seq(|Priorities(ps)|, k requires 0 <= k < |Priorities(ps)| => Group(ps, Priorities(ps)[k]))
  }

  lemma {:induction false} InsertedLast(sorted: seq<nat>, n: nat)
    requires Ascending(sorted) && (sorted == [] || sorted[|sorted| - 1] <= n)
    ensures Inserted(sorted, n) == if sorted != [] && sorted[|sorted| - 1] == n then sorted else sorted + [n]
  {
    if |sorted| > 1 {
      var rest := sorted[1..];
      assert rest[|rest| - 1] == sorted[|sorted| - 1] && sorted[0] < sorted[|sorted| - 1];
      RestAscends(sorted);
      InsertedLast(rest, n);
      assert sorted == [sorted[0]] + rest;
    }
  }

  lemma {:induction false} GroupEmpty(ps: seq<Provider>, priority: nat)
    requires forall i :: 0 <= i < |ps| ==> ps[i].Priority() != priority
    ensures Group(ps, priority) == []
  {
    if ps != [] { GroupEmpty(ps[..|ps| - 1], priority); }
  }

  // The groups with one more candidate behind the others.
  lemma GroupsNext(init: seq<Provider>, last: Provider)
    requires ByPriority(init + [last])
    ensures Concat(Groups(init + [last])) == Concat(Groups(init)) + [last]
  {
    hide Inserted, Group;
    var ps, ns, n := init + [last], Priorities(init), last.Priority();
    assert ps[..|init|] == init && forall i :: 0 <= i < |init| ==> ps[i] == init[i];
    assert forall i :: 0 <= i < |init| ==> ps[i].Priority() <= ps[|init|].Priority();
    PrioritiesFacts(init);
    assert forall k :: 0 <= k < |ns| ==> ns[k] in ns;
    InsertedLast(ns, n);
    GroupsOfNext(init, last);
    if ns != [] && ns[|ns| - 1] == n {
      LastPartGrows(init, last, ps);
    } else {
      LastIsNew(init, n);
      GroupEmpty(init, n);
      OnePartMore(init, last, ps);
    }
  }

  lemma LastPartGrows(init: seq<Provider>, last: Provider, ps: seq<Provider>)
    requires Priorities(ps) == Priorities(init) && Priorities(init) != [] && Ascending(Priorities(init))
    requires Priorities(init)[|Priorities(init)| - 1] == last.Priority()
    requires forall priority: nat ::
      Group(ps, priority) == Group(init, priority) + (if last.Priority() == priority then [last] else [])
    ensures Concat(Groups(ps)) == Concat(Groups(init)) + [last]
  {
    hide Group, Priorities;
    var m := |Priorities(init)| - 1;
    forall k | 0 <= k < m
      ensures Groups(ps)[k] == Groups(init)[k]
    {
      assert Priorities(init)[k] < Priorities(init)[m];
    }
    assert Groups(ps)[..m] == Groups(init)[..m];
    assert Groups(ps)[m] == Groups(init)[m] + [last];
  }

  lemma OnePartMore(init: seq<Provider>, last: Provider, ps: seq<Provider>)
    requires Priorities(ps) == Priorities(init) + [last.Priority()] && last.Priority() !in Priorities(init)
    requires forall priority: nat ::
      Group(ps, priority) == Group(init, priority) + (if last.Priority() == priority then [last] else [])
    requires Group(init, last.Priority()) == []
    ensures Concat(Groups(ps)) == Concat(Groups(init)) + [last]
  {
    hide Group, Priorities;
    var m := |Priorities(init)|;
    forall k | 0 <= k < m
      ensures Groups(ps)[k] == Groups(init)[k]
    {
      assert Priorities(ps)[k] == Priorities(init)[k] && Priorities(init)[k] in Priorities(init);
    }
    assert Groups(ps)[..m] == Groups(init);
    assert Groups(ps)[m] == [last];
  }

  lemma GroupsOfNext(init: seq<Provider>, last: Provider)
    ensures forall priority: nat ::
      Group(init + [last], priority) == Group(init, priority) + (if last.Priority() == priority then [last] else [])
    ensures Priorities(init + [last]) == Inserted(Priorities(init), last.Priority())
  {
    assert (init + [last])[..|init|] == init;
  }

  lemma LastIsNew(init: seq<Provider>, n: nat)
    requires forall i :: 0 <= i < |init| ==> init[i].Priority() <= n
    requires Priorities(init) == [] || Priorities(init)[|Priorities(init)| - 1] != n
    ensures forall i :: 0 <= i < |init| ==> init[i].Priority() != n
    ensures n !in Priorities(init)
  {
    var ns := Priorities(init);
    PrioritiesFacts(init);
    forall i | 0 <= i < |init|
      ensures init[i].Priority() != n
    {
      assert init[i].Priority() in ns;
      var k :| 0 <= k < |ns| && ns[k] == init[i].Priority();
      var m := |ns| - 1;
      assert ns[m] in ns;
      assert k < m ==> ns[k] < ns[m];
    }
  }

  /** A list in priority order is its groups put together. */
  lemma {:induction false} GroupsInOrder(ps: seq<Provider>)
    requires ByPriority(ps)
    ensures Concat(Groups(ps)) == ps
  {
    if ps != [] {
      var init, last := ps[..|ps| - 1], ps[|ps| - 1];
      assert ps == init + [last];
      GroupsInOrder(init);
      GroupsNext(init, last);
    }
  }

  /** `parts` are lists of the groups' own providers, one for each priority in ascending order:
      put together they are in priority order and hold exactly the providers of `ps`. */
  ghost predicate PartsOf(ps: seq<Provider>, parts: seq<seq<Provider>>) {
    && |parts| == |Priorities(ps)|
    && forall k :: 0 <= k < |parts| ==> forall p :: p in parts[k] <==> p in Group(ps, Priorities(ps)[k])
  }

  lemma {:induction false} ConcatMembers<T>(parts: seq<seq<T>>, x: T)
    ensures x in Concat(parts) <==> exists k :: 0 <= k < |parts| && x in parts[k]
  {
    if parts != [] {
      ConcatMembers(parts[..|parts| - 1], x);
      if x in parts[|parts| - 1] {
        assert x in Concat(parts);
      }
    }
  }

  lemma {:induction false} ConcatByPriority(parts: seq<seq<Provider>>, priorities: seq<nat>)
    requires |parts| == |priorities| && Ascending(priorities)
    requires forall k, p :: 0 <= k < |parts| && p in parts[k] ==> p.Priority() == priorities[k]
    ensures ByPriority(Concat(parts))
    ensures forall p :: p in Concat(parts) ==> parts != [] && p.Priority() <= priorities[|parts| - 1]
  {
    if parts != [] {
      var init, last := parts[..|parts| - 1], parts[|parts| - 1];
      ConcatByPriority(init, priorities[..|parts| - 1]);
      var c: seq<Provider> := Concat(init);
      var all: seq<Provider> := c + last;
      forall i, j | 0 <= i < j < |all|
        ensures all[i].Priority() <= all[j].Priority()
      {
        if j >= |c| {
          assert last[j - |c|] in last;
          if i < |c| { assert c[i] in c; } else { assert last[i - |c|] in last; }
        }
      }
    }
  }

  lemma PartsFacts(ps: seq<Provider>, parts: seq<seq<Provider>>)
    requires PartsOf(ps, parts)
    ensures ByPriority(Concat(parts))
    ensures forall p :: p in Concat(parts) <==> p in ps
  {
    hide Group, Priorities, Concat;
    PrioritiesFacts(ps);
    forall k, p | 0 <= k < |parts| && p in parts[k]
      ensures p in ps && p.Priority() == Priorities(ps)[k]
    {
      GroupFacts(ps, Priorities(ps)[k]);
    }
    ConcatByPriority(parts, Priorities(ps));
    forall p
      ensures p in Concat(parts) <==> p in ps
    {
      ConcatMembers(parts, p);
      if p in ps {
        assert p.Priority() in Priorities(ps);
        var k :| 0 <= k < |Priorities(ps)| && Priorities(ps)[k] == p.Priority();
        GroupFacts(ps, Priorities(ps)[k]);
        assert p in parts[k];
      }
    }
  }
}
