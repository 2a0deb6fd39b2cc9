/**
 The ordering stage of `get_right_order_providers` in `core/routing.py`: priority groups of a
 virtual route stay in chain order, and within a group the channel weights decide.
 */
module Routing {
  import opened Collections
  import opened Providers
  import Scheduling

  datatype Algorithm = FixedPriority | WeightedRoundRobin | Lottery | Random | Other

  // ---------- sorting by weight ----------

  // Stable: `p` goes behind every provider of the same weight.
  function InsertByWeight(sorted: seq<Provider>, p: Provider): seq<Provider> {
    if sorted == [] then [p]
    else if sorted[|sorted| - 1].weight >= p.weight then sorted + [p]
    else InsertByWeight(sorted[..|sorted| - 1], p) + [sorted[|sorted| - 1]]
  }

  // `sort(key=get_provider_weight, reverse=True)`
  function ByWeight(ps: seq<Provider>): seq<Provider> {
    if ps == [] then [] else InsertByWeight(ByWeight(ps[..|ps| - 1]), ps[|ps| - 1])
  }

  ghost predicate WeightsDescend(ps: seq<Provider>) {
    forall i, j :: 0 <= i < j < |ps| ==> ps[i].weight >= ps[j].weight
  }

  // The providers of weight `w`, in order.
  function OfWeight(ps: seq<Provider>, w: int): seq<Provider> {
    if ps == [] then []
    else
      var init, last := OfWeight(ps[..|ps| - 1], w), ps[|ps| - 1];
      if last.weight == w then init + [last] else init
  }

  lemma OfWeightAppend(ps: seq<Provider>, last: Provider, w: int)
    ensures OfWeight(ps + [last], w) == OfWeight(ps, w) + (if last.weight == w then [last] else [])
  {
    assert (ps + [last])[..|ps|] == ps;
  }

  lemma {:induction false} InsertDescends(sorted: seq<Provider>, p: Provider)
    requires WeightsDescend(sorted)
    ensures WeightsDescend(InsertByWeight(sorted, p))
    ensures forall x :: x in InsertByWeight(sorted, p) <==> x in sorted || x == p
  {
    if sorted != [] && sorted[|sorted| - 1].weight < p.weight {
      var init, last := sorted[..|sorted| - 1], sorted[|sorted| - 1];
      InsertDescends(init, p);
      var rest := InsertByWeight(init, p);
      forall i | 0 <= i < |rest|
        ensures rest[i].weight >= last.weight
      {
        assert rest[i] in rest;
      }
      assert forall x :: x in sorted <==> x in init || x == last;
    }
  }

  // Equal weights stay in order: `p` comes behind those it meets.
  lemma {:induction false} InsertKeepsOrder(sorted: seq<Provider>, p: Provider, w: int)
    requires WeightsDescend(sorted)
    ensures OfWeight(InsertByWeight(sorted, p), w) == OfWeight(sorted, w) + (if p.weight == w then [p] else [])
  {
    if sorted == [] || sorted[|sorted| - 1].weight >= p.weight {
      OfWeightAppend(sorted, p, w);
      assert sorted + [p] == InsertByWeight(sorted, p);
    } else {
      var init, last := sorted[..|sorted| - 1], sorted[|sorted| - 1];
      InsertKeepsOrder(init, p, w);
      OfWeightAppend(InsertByWeight(init, p), last, w);
    }
  }

  /** Sorting puts the weights in descending order and keeps equal weights in their old order. */
  lemma {:induction false} ByWeightFacts(ps: seq<Provider>, w: int)
    ensures WeightsDescend(ByWeight(ps))
    ensures forall x :: x in ByWeight(ps) <==> x in ps
    ensures OfWeight(ByWeight(ps), w) == OfWeight(ps, w)
  {
    if ps != [] {
      var init, last := ps[..|ps| - 1], ps[|ps| - 1];
      ByWeightFacts(init, w);
      InsertDescends(ByWeight(init), last);
      InsertKeepsOrder(ByWeight(init), last, w);
      assert forall x :: x in ps <==> x in init || x == last;
    }
  }

  ghost predicate Unweighted(ps: seq<Provider>) {
    forall i :: 0 <= i < |ps| ==> ps[i].weight == 0
  }

  lemma NoWeight(ps: seq<Provider>)
    requires Unweighted(ps)
    ensures forall p :: p in ps ==> p.weight <= 0
  {
  }

  // Without weights the sort changes nothing.
  lemma {:induction false} UnweightedStays(ps: seq<Provider>)
    requires Unweighted(ps)
    ensures ByWeight(ps) == ps
  {
    if ps != [] { UnweightedStays(ps[..|ps| - 1]); }
  }

  lemma UnweightedGroup(ps: seq<Provider>, priority: nat)
    requires Unweighted(ps)
    ensures ByWeight(Group(ps, priority)) == Group(ps, priority)
    ensures forall p :: p in Group(ps, priority) ==> p.weight <= 0
  {
    var group := Group(ps, priority);
    GroupFacts(ps, priority);
    forall i | 0 <= i < |group|
      ensures group[i].weight == 0
    {
      assert group[i] in group;
    }
    UnweightedStays(group);
  }

  // ---------- weight expansion ----------

  // The slots of `name`.
  function Named(ps: seq<Provider>, name: string): seq<Provider> {
    if ps == [] then []
    else
      var init, last := Named(ps[..|ps| - 1], name), ps[|ps| - 1];
      if last.name == name then init + [last] else init
  }

  // The providers without a scheduled weight.
  function Unscheduled(ps: seq<Provider>, weights: Scheduling.Weights): seq<Provider> {
    if ps == [] then []
    else
      var init, last := Unscheduled(ps[..|ps| - 1], weights), ps[|ps| - 1];
      if last.name in weights then init else init + [last]
  }

  function Expanded(ps: seq<Provider>, picked: seq<string>): seq<Provider> {
    if picked == [] then [] else Expanded(ps, picked[..|picked| - 1]) + Named(ps, picked[|picked| - 1])
  }

  lemma {:induction false} NamedFacts(ps: seq<Provider>, name: string)
    ensures forall x :: x in Named(ps, name) <==> x in ps && x.name == name
  {
    if ps != [] {
      NamedFacts(ps[..|ps| - 1], name);
      assert forall x :: x in ps <==> x in ps[..|ps| - 1] || x == ps[|ps| - 1];
    }
  }

  lemma {:induction false} UnscheduledFacts(ps: seq<Provider>, weights: Scheduling.Weights)
    ensures forall x :: x in Unscheduled(ps, weights) <==> x in ps && x.name !in weights
  {
    if ps != [] {
      UnscheduledFacts(ps[..|ps| - 1], weights);
      assert forall x :: x in ps <==> x in ps[..|ps| - 1] || x == ps[|ps| - 1];
    }
  }

  function BearsName(name: string): Provider -> bool { (p: Provider) => p.name == name }

  function LacksWeight(weights: Scheduling.Weights): Provider -> bool { (p: Provider) => p.name !in weights }

  lemma {:induction false} NamedFilters(ps: seq<Provider>, name: string)
    ensures Filters(Named(ps, name), ps, BearsName(name))
  {
    hide Filters;
    if ps == [] {
      FilterEmpty(BearsName(name));
    } else {
      var init, last := ps[..|ps| - 1], ps[|ps| - 1];
      NamedFilters(init, name);
      FilterNext(Named(init, name), init, BearsName(name), last);
      assert ps == init + [last];
    }
  }

  lemma {:induction false} UnscheduledFilters(ps: seq<Provider>, weights: Scheduling.Weights)
    ensures Filters(Unscheduled(ps, weights), ps, LacksWeight(weights))
  {
    hide Filters;
    if ps == [] {
      FilterEmpty(LacksWeight(weights));
    } else {
      var init, last := ps[..|ps| - 1], ps[|ps| - 1];
      UnscheduledFilters(init, weights);
      FilterNext(Unscheduled(init, weights), init, LacksWeight(weights), last);
      assert ps == init + [last];
    }
  }

  // Where block `i` starts, when block `j` ends at `ends[j]`.
  function BlockStart(ends: seq<nat>, i: nat): nat
    requires i <= |ends|
  {
    if i == 0 then 0 else ends[i - 1]
  }

  // Block after block the providers of the picked names, then those without a scheduled weight,
  // each in the order of `ps`.
  ghost predicate BlocksAt(ordered: seq<Provider>, ps: seq<Provider>, picked: seq<string>,
      weights: Scheduling.Weights, ends: seq<nat>)
  {
    && |ends| == |picked|
    && (forall i :: 0 <= i < |ends| ==> BlockStart(ends, i) <= ends[i] <= |ordered|)
    && (forall i :: 0 <= i < |ends| ==> Filters(ordered[BlockStart(ends, i)..ends[i]], ps, BearsName(picked[i])))
    && Filters(ordered[BlockStart(ends, |ends|)..], ps, LacksWeight(weights))
  }

  lemma {:induction false} BlocksExpanded(ps: seq<Provider>, picked: seq<string>) returns (ends: seq<nat>)
    ensures |ends| == |picked| && BlockStart(ends, |ends|) == |Expanded(ps, picked)|
    ensures forall i :: 0 <= i < |ends| ==> BlockStart(ends, i) <= ends[i] <= |Expanded(ps, picked)|
    ensures forall i :: 0 <= i < |ends| ==>
      Expanded(ps, picked)[BlockStart(ends, i)..ends[i]] == Named(ps, picked[i])
  {
    hide Named, Expanded, BlockStart;
    ExpandedLast(ps, picked);
    ends := [];
    StartsKept(ends, 0);
    if picked != [] {
      var init, last := picked[..|picked| - 1], picked[|picked| - 1];
      var before, now := Expanded(ps, init), Expanded(ps, picked);
      var was := BlocksExpanded(ps, init);
      ends := was + [|now|];
      StartsKept(was, |now|);
      forall i | 0 <= i < |was|
        ensures BlockStart(ends, i) <= ends[i] <= |now| && now[BlockStart(ends, i)..ends[i]] == Named(ps, picked[i])
      {
        assert ends[i] == was[i] && init[i] == picked[i];
        assert now[BlockStart(was, i)..was[i]] == before[BlockStart(was, i)..was[i]];
      }
      assert now[|before|..|now|] == Named(ps, last);
    }
  }

  lemma ExpandedLast(ps: seq<Provider>, picked: seq<string>)
    ensures picked == [] ==> Expanded(ps, picked) == []
    ensures picked != [] ==>
      Expanded(ps, picked) == Expanded(ps, picked[..|picked| - 1]) + Named(ps, picked[|picked| - 1])
  {
  }

  lemma StartsKept(ends: seq<nat>, last: nat)
    ensures ends == [] ==> BlockStart(ends, 0) == 0
    ensures forall i :: 0 <= i <= |ends| ==> BlockStart(ends + [last], i) == BlockStart(ends, i)
    ensures BlockStart(ends + [last], |ends| + 1) == last
  {
  }

  lemma BlocksOrdered(ps: seq<Provider>, picked: seq<string>, weights: Scheduling.Weights) returns (ends: seq<nat>)
    ensures BlocksAt(Expanded(ps, picked) + Unscheduled(ps, weights), ps, picked, weights, ends)
  {
    hide Named, Unscheduled, Filters, Expanded, BearsName, LacksWeight;
    var blocks, rest := Expanded(ps, picked), Unscheduled(ps, weights);
    ends := BlocksExpanded(ps, picked);
    forall i | 0 <= i < |ends|
      ensures Filters((blocks + rest)[BlockStart(ends, i)..ends[i]], ps, BearsName(picked[i]))
    {
      NamedFilters(ps, picked[i]);
      assert (blocks + rest)[BlockStart(ends, i)..ends[i]] == blocks[BlockStart(ends, i)..ends[i]];
    }
    UnscheduledFilters(ps, weights);
    assert (blocks + rest)[|blocks|..] == rest;
  }

  lemma {:induction false} ExpandedFacts(ps: seq<Provider>, picked: seq<string>)
    ensures forall x :: x in Expanded(ps, picked) <==> x in ps && x.name in picked
  {
    if picked != [] {
      var init, last := picked[..|picked| - 1], picked[|picked| - 1];
      ExpandedFacts(ps, init);
      NamedFacts(ps, last);
      assert forall name :: name in picked <==> name in init || name == last;
    }
  }

  function Slots(ps: seq<Provider>, name: string): nat { |Named(ps, name)| }

  lemma {:induction false} SlotsConcat(a: seq<Provider>, b: seq<Provider>, name: string)
    ensures Slots(a + b, name) == Slots(a, name) + Slots(b, name)
  {
    if b == [] {
      assert a + b == a;
    } else {
      assert (a + b)[..|a + b| - 1] == a + b[..|b| - 1];
      SlotsConcat(a, b[..|b| - 1], name);
    }
  }

  // Among the slots of one name every slot counts, among those of another none does.
  lemma {:induction false} SlotsOfNamed(ps: seq<Provider>, name: string, other: string)
    ensures Slots(Named(ps, name), other) == if name == other then Slots(ps, name) else 0
  {
    if ps != [] {
      var init, last := ps[..|ps| - 1], ps[|ps| - 1];
      SlotsOfNamed(init, name, other);
      if last.name == name {
        assert (Named(init, name) + [last])[..|Named(init, name)|] == Named(init, name);
      }
    }
  }

  lemma OneMore(n: int, k: int)
    ensures (n + 1) * k == n * k + k
  {
  }

  lemma NoSlots(name: string)
    ensures Slots([], name) == 0
  {
  }

  /** Each pick of a name gives it one slot for each of its providers. */
  lemma {:induction false} ExpandedSlots(ps: seq<Provider>, picked: seq<string>, name: string)
    ensures Slots(Expanded(ps, picked), name) == Scheduling.Picks(picked, name) * Slots(ps, name)
  {
    hide Slots;
    if picked == [] { NoSlots(name); }
    if picked != [] {
      var init, last := picked[..|picked| - 1], picked[|picked| - 1];
      ExpandedSlots(ps, init, name);
      SlotsConcat(Expanded(ps, init), Named(ps, last), name);
      SlotsOfNamed(ps, last, name);
      OneMore(Scheduling.Picks(init, name), Slots(ps, name));
    }
  }

  // ---------- the weight table of a group ----------

  // The last positive weight given under `name`, or 0.
  function LastWeight(ps: seq<Provider>, name: string): nat {
    if ps == [] then 0
    else if ps[|ps| - 1].name == name && ps[|ps| - 1].weight > 0 then ps[|ps| - 1].weight
    else LastWeight(ps[..|ps| - 1], name)
  }

  lemma {:induction false} LastWeightPositive(ps: seq<Provider>, name: string)
    ensures LastWeight(ps, name) > 0 <==> exists p :: p in ps && p.name == name && p.weight > 0
    ensures forall p :: p in ps && p.name == name && LastWeight(ps, name) == 0 ==> p.weight <= 0
  {
    if ps != [] {
      LastWeightPositive(ps[..|ps| - 1], name);
      assert forall p :: p in ps <==> p in ps[..|ps| - 1] || p == ps[|ps| - 1];
    }
  }

  // The weight of `name` is the one at `i`: the last that is positive.
  ghost predicate WeighedAt(ps: seq<Provider>, name: string, weight: int, i: nat) {
    && i < |ps| && ps[i].name == name && ps[i].weight == weight > 0
    && forall j :: i < j < |ps| && ps[j].name == name ==> ps[j].weight <= 0
  }

  lemma {:induction false} LastWeightMeans(ps: seq<Provider>, name: string) returns (i: nat)
    ensures LastWeight(ps, name) > 0 ==> WeighedAt(ps, name, LastWeight(ps, name), i)
    ensures LastWeight(ps, name) == 0 ==> forall j :: 0 <= j < |ps| && ps[j].name == name ==> ps[j].weight <= 0
  {
    if ps == [] {
      i := 0;
    } else if ps[|ps| - 1].name == name && ps[|ps| - 1].weight > 0 {
      i := |ps| - 1;
    } else {
      i := LastWeightMeans(ps[..|ps| - 1], name);
    }
  }

  // The names come in the order in which they first have a positive weight.
  ghost predicate FirstWeighed(ps: seq<Provider>, names: seq<string>, firsts: seq<nat>) {
    && |firsts| == |names|
    && (forall a :: 0 <= a < |names| ==>
      firsts[a] < |ps| && ps[firsts[a]].name == names[a] && ps[firsts[a]].weight > 0)
    && (forall a, j :: 0 <= a < |names| && 0 <= j < firsts[a] && ps[j].name == names[a] ==> ps[j].weight <= 0)
    && forall a, b :: 0 <= a < b < |names| ==> firsts[a] < firsts[b]
  }

  lemma FirstsKept(ps: seq<Provider>, k: nat, names: seq<string>, firsts: seq<nat>)
    requires k < |ps| && FirstWeighed(ps[..k], names, firsts)
    ensures FirstWeighed(ps[..k + 1], names, firsts)
  {
    assert forall i :: 0 <= i < k ==> ps[..k + 1][i] == ps[..k][i];
  }

  ghost predicate TableOf(ps: seq<Provider>, names: seq<string>, weights: Scheduling.Weights) {
    && Scheduling.WeightTable(names, weights)
    && (forall name :: name in weights <==> LastWeight(ps, name) > 0)
    && forall name :: name in weights ==> weights[name] == LastWeight(ps, name)
  }

  lemma TableNext(ps: seq<Provider>, k: nat, names: seq<string>, weights: Scheduling.Weights)
    requires k < |ps| && TableOf(ps[..k], names, weights)
    ensures var p := ps[k];
      if p.weight <= 0 then TableOf(ps[..k + 1], names, weights)
      else TableOf(ps[..k + 1], if p.name in weights then names else names + [p.name], weights[p.name := p.weight])
  {
    assert ps[..k + 1][..k] == ps[..k];
  }

  lemma FirstAdded(ps: seq<Provider>, k: nat, names: seq<string>, firsts: seq<nat>, weights: Scheduling.Weights)
    requires k < |ps| && FirstWeighed(ps[..k], names, firsts) && ps[k].weight > 0
    requires TableOf(ps[..k], names, weights) && ps[k].name !in weights
    ensures FirstWeighed(ps[..k + 1], names + [ps[k].name], firsts + [k])
  {
    hide LastWeight;
    var before, now := ps[..k], ps[..k + 1];
    assert forall i :: 0 <= i < k ==> now[i] == before[i];
    LastWeightPositive(before, ps[k].name);
    assert forall i :: 0 <= i < k ==> before[i] in before;
  }

  lemma NothingWeighed()
    ensures TableOf([], [], map[]) && FirstWeighed([], [], [])
  {
  }

  method ChannelWeights(ps: seq<Provider>)
    returns (names: seq<string>, weights: Scheduling.Weights, ghost firsts: seq<nat>)
    ensures TableOf(ps, names, weights) && FirstWeighed(ps, names, firsts)
  {
    hide TableOf, FirstWeighed;
    names, weights, firsts := [], map[], [];
    NothingWeighed();
    for k := 0 to |ps|
      invariant TableOf(ps[..k], names, weights) && FirstWeighed(ps[..k], names, firsts)
    {
      TableNext(ps, k, names, weights);
      if ps[k].weight > 0 {
        if ps[k].name !in weights {
          FirstAdded(ps, k, names, firsts, weights);
          names, firsts := names + [ps[k].name], firsts + [k];
        } else {
          FirstsKept(ps, k, names, firsts);
        }
        weights := weights[ps[k].name := ps[k].weight];
      } else {
        FirstsKept(ps, k, names, firsts);
      }
    }
    assert ps[..|ps|] == ps;
  }

  // Every candidate is there and nothing else.
  ghost predicate SameCandidates(a: seq<Provider>, b: seq<Provider>) {
    forall p :: p in a <==> p in b
  }

  /** `apply_weight_order` on one group. `draw` is the outcome of `lottery_scheduling`. Except
      under lottery no candidate is lost, and a provider that is alone under its name gets as
      many slots as its normalised weight. */
  method ApplyWeightOrder(group: seq<Provider>, algorithm: Algorithm, draw: seq<string>)
    returns (ordered: seq<Provider>, ghost weights: Scheduling.Weights, ghost names: seq<string>,
      ghost picked: seq<string>)
    ensures forall p :: p in ordered ==> p in group
    ensures !algorithm.Lottery? ==> SameCandidates(ordered, group)
    ensures Scheduling.WeightTable(names, weights)
    ensures (algorithm.FixedPriority? || algorithm.WeightedRoundRobin?) ==>
      forall name :: name in names ==>
        Slots(ordered, name) == Scheduling.Normalised(names, weights)[name] * Slots(group, name)
    ensures (algorithm.FixedPriority? || algorithm.WeightedRoundRobin?) ==>
      forall name :: name !in names ==> Slots(ordered, name) == Slots(group, name)
    ensures algorithm.Random? || algorithm.Other? || (forall p :: p in group ==> p.weight <= 0) ==>
      ordered == ByWeight(group)
    ensures forall name :: name in names <==> LastWeight(ByWeight(group), name) > 0
    ensures forall name :: name in names ==> weights[name] == LastWeight(ByWeight(group), name)
    ensures exists firsts :: FirstWeighed(ByWeight(group), names, firsts)
    ensures names != [] && (algorithm.FixedPriority? || algorithm.WeightedRoundRobin? || algorithm.Lottery?) ==>
      exists ends :: BlocksAt(ordered, ByWeight(group), picked, weights, ends)
    ensures names != [] && (algorithm.FixedPriority? || algorithm.WeightedRoundRobin?) ==>
      var w := Scheduling.Normalised(names, weights);
      Scheduling.FairSchedule(names, w, picked) && |picked| == Scheduling.Total(names, w)
    ensures names != [] && algorithm.Lottery? ==> picked == draw
  {
    hide ByWeight, Slots, LastWeight, Expanded, Unscheduled, Scheduling.Normalised, Scheduling.Picks;
    hide Scheduling.FairSchedule, Scheduling.Total, BlocksAt, FirstWeighed;
    picked := [];
    var sorted := ByWeight(group);
    ByWeightFacts(group, 0);
    ordered := sorted;
    names, weights := [], map[];
    var names', weights';
    ghost var firsts;
    names', weights', firsts := ChannelWeights(sorted);
    names, weights := names', weights';
    forall p | p in group && p.weight > 0
      ensures p.name in names
    {
      LastWeightPositive(sorted, p.name);
      assert p in sorted;
    }
    if names' == [] {
      forall name
        ensures Slots(sorted, name) == Slots(group, name)
      {
        SortKeepsSlots(group, name);
      }
      return;
    }
    LastWeightPositive(sorted, names'[0]);
    assert exists p :: p in group && p.weight > 0;
    var schedule: seq<string>;
    if algorithm.FixedPriority? || algorithm.WeightedRoundRobin? {
      schedule := Scheduling.WeightedRoundRobin(names', weights');
      PickedNames(names', weights', schedule);
    } else if algorithm.Lottery? {
      schedule := draw;
    } else {
      return;
    }
    picked := schedule;
    ExpandedFacts(sorted, schedule);
    UnscheduledFacts(sorted, weights');
    ordered := Expanded(sorted, schedule) + Unscheduled(sorted, weights');
    ghost var ends := BlocksOrdered(sorted, schedule, weights');
    if !algorithm.Lottery? {
      forall name
        ensures Slots(ordered, name) ==
          if name in names then Scheduling.Normalised(names, weights)[name] * Slots(group, name) else Slots(group, name)
      {
        SortKeepsSlots(group, name);
        SlotsAfter(sorted, schedule, names', weights', name);
      }
    }
  }

  lemma SlotsAfter(sorted: seq<Provider>, picked: seq<string>, names: seq<string>, weights: Scheduling.Weights,
      name: string)
    requires Scheduling.WeightTable(names, weights)
    requires forall x :: x in picked <==> x in names
    requires forall x :: x in names ==> Scheduling.Picks(picked, x) == Scheduling.Normalised(names, weights)[x]
    ensures Slots(Expanded(sorted, picked) + Unscheduled(sorted, weights), name) ==
      if name in names then Scheduling.Normalised(names, weights)[name] * Slots(sorted, name) else Slots(sorted, name)
  {
    hide Slots, Expanded, Unscheduled, Scheduling.Normalised, Scheduling.Picks;
    SlotsConcat(Expanded(sorted, picked), Unscheduled(sorted, weights), name);
    ExpandedSlots(sorted, picked, name);
    UnscheduledSlots(sorted, weights, name);
    if name !in names { PickedNever(picked, name); }
  }

  lemma {:induction false} UnscheduledSlots(ps: seq<Provider>, weights: Scheduling.Weights, name: string)
    ensures Slots(Unscheduled(ps, weights), name) == if name in weights then 0 else Slots(ps, name)
  {
    if ps != [] {
      var init, last := ps[..|ps| - 1], ps[|ps| - 1];
      UnscheduledSlots(init, weights, name);
      if last.name !in weights {
        var u := Unscheduled(init, weights);
        assert (u + [last])[..|u|] == u;
      }
    }
  }

  lemma {:induction false} InsertKeepsSlots(sorted: seq<Provider>, p: Provider, name: string)
    ensures Slots(InsertByWeight(sorted, p), name) == Slots(sorted, name) + (if p.name == name then 1 else 0)
  {
    if sorted == [] {
      assert [p][..0] == [];
    } else if sorted[|sorted| - 1].weight >= p.weight {
      assert (sorted + [p])[..|sorted|] == sorted;
    } else {
      var init, last := sorted[..|sorted| - 1], sorted[|sorted| - 1];
      InsertKeepsSlots(init, p, name);
      var r := InsertByWeight(init, p);
      assert (r + [last])[..|r|] == r;
    }
  }

  lemma {:induction false} SortKeepsSlots(ps: seq<Provider>, name: string)
    ensures Slots(ByWeight(ps), name) == Slots(ps, name)
  {
    if ps != [] {
      SortKeepsSlots(ps[..|ps| - 1], name);
      InsertKeepsSlots(ByWeight(ps[..|ps| - 1]), ps[|ps| - 1], name);
    }
  }

  lemma PickedNames(names: seq<string>, weights: Scheduling.Weights, picked: seq<string>)
    requires Scheduling.WeightTable(names, weights)
    requires Scheduling.FairSchedule(names, Scheduling.Normalised(names, weights), picked)
    requires forall name :: name in names ==> Scheduling.Picks(picked, name) >= 1
    ensures forall name :: name in picked <==> name in names
  {
    Scheduling.ScheduledNames(names, Scheduling.Normalised(names, weights), picked);
    forall name | name in names
      ensures name in picked
    {
      if name !in picked { PickedNever(picked, name); }
    }
  }

  lemma {:induction false} PickedNever(picked: seq<string>, name: string)
    requires name !in picked
    ensures Scheduling.Picks(picked, name) == 0
  {
    if picked != [] { PickedNever(picked[..|picked| - 1], name); }
  }

  // One group of a virtual route.
  method OrderGroup(ps: seq<Provider>, priority: nat, algorithm: Algorithm, draw: seq<string>)
    returns (part: seq<Provider>)
    ensures forall p :: p in part ==> p in ps && p.Priority() == priority
    ensures !algorithm.Lottery? ==> forall p :: p in part <==> p in Group(ps, priority)
    ensures Unweighted(ps) ==> part == Group(ps, priority)
  {
    hide ByWeight, Unweighted, Group, Slots, Scheduling.Normalised, Scheduling.WeightTable;
    ghost var weights, names, picked;
    part, weights, names, picked := ApplyWeightOrder(Group(ps, priority), algorithm, draw);
    GroupFacts(ps, priority);
    if Unweighted(ps) { UnweightedGroup(ps, priority); }
  }

  method OrderGroups(ps: seq<Provider>, algorithm: Algorithm, draws: nat -> seq<string>)
    returns (ordered: seq<Provider>, ghost parts: seq<seq<Provider>>)
    ensures ordered == Concat(parts) && |parts| == |Priorities(ps)|
    ensures forall k, p :: 0 <= k < |parts| && p in parts[k] ==> p in ps && p.Priority() == Priorities(ps)[k]
    ensures !algorithm.Lottery? ==> PartsOf(ps, parts)
    ensures Unweighted(ps) ==> parts == Groups(ps)
  {
    hide Unweighted, Group, Priorities;
    var priorities := Priorities(ps);
    ordered, parts := [], [];
    for k := 0 to |priorities|
      invariant |parts| == k && ordered == Concat(parts)
      invariant forall j, p :: 0 <= j < k && p in parts[j] ==> p in ps && p.Priority() == priorities[j]
      invariant !algorithm.Lottery? ==>
        forall j :: 0 <= j < k ==> forall p :: p in parts[j] <==> p in Group(ps, priorities[j])
      invariant Unweighted(ps) ==> forall j :: 0 <= j < k ==> parts[j] == Group(ps, priorities[j])
    {
      var part := OrderGroup(ps, priorities[k], algorithm, draws(priorities[k]));
      assert (parts + [part])[..|parts|] == parts;
      parts := parts + [part];
      ordered := ordered + part;
    }
  }

  /** The ordering of all candidates: on a virtual route group by group in chain order, whatever
      the algorithm, otherwise as one group. Except under lottery no candidate is lost; a list
      in chain order without weights stays as it is. */
  method OrderCandidates(ps: seq<Provider>, algorithm: Algorithm, draws: nat -> seq<string>)
    returns (ordered: seq<Provider>)
    ensures forall p :: p in ordered ==> p in ps
    ensures !algorithm.Lottery? ==> SameCandidates(ordered, ps)
    ensures (exists p :: p in ps && p.Virtual()) ==> ByPriority(ordered)
    ensures Unweighted(ps) && ByPriority(ps) ==> ordered == ps
  {
    hide ByWeight, Unweighted, Group, Priorities, Groups, Concat, Slots, Scheduling.Normalised, Scheduling.WeightTable;
    var virtual := exists i :: 0 <= i < |ps| && ps[i].Virtual();
    if !virtual {
      ghost var weights, names, picked;
      ordered, weights, names, picked := ApplyWeightOrder(ps, algorithm, draws(0));
      assert forall p :: p in ps ==> !p.Virtual();
      if Unweighted(ps) {
        UnweightedStays(ps);
        NoWeight(ps);
      }
      return;
    }
    ghost var parts;
    ordered, parts := OrderGroups(ps, algorithm, draws);
    PrioritiesFacts(ps);
    ConcatByPriority(parts, Priorities(ps));
    forall p | p in ordered
      ensures p in ps
    {
      ConcatMembers(parts, p);
    }
    if !algorithm.Lottery? { PartsFacts(ps, parts); }
    if Unweighted(ps) && ByPriority(ps) { GroupsInOrder(ps); }
  }

  // ---------- the candidates of a request ----------

  /** The configuration as one lookup finds it: the virtual model's candidates that passed
      authorisation, filters and cooldown (none when the name is no virtual model), the ordinary
      providers matching the name, and the two later filters. */
  datatype World = World(
    virtual: seq<Provider>, regular: seq<Provider>,
    fitsTokens: Provider -> bool, cooldown: bool, available: Provider -> bool)

  // Ordinary candidates are built afresh, without the fields of a virtual route.
  function Ordinary(ps: seq<Provider>): (r: seq<Provider>)
    ensures forall p :: p in r ==> !p.Virtual()
  {
    if ps == [] then [] else Ordinary(ps[..|ps| - 1]) + [ps[|ps| - 1].(chain := None)]
  }

  function Kept(ps: seq<Provider>, keep: Provider -> bool): (r: seq<Provider>)
    ensures forall p :: p in r ==> p in ps && keep(p)
  {
    if ps == [] then []
    else
      var init, last := Kept(ps[..|ps| - 1], keep), ps[|ps| - 1];
      if keep(last) then init + [last] else init
  }

  lemma {:induction false} KeptFacts(ps: seq<Provider>, keep: Provider -> bool)
    ensures forall p :: p in Kept(ps, keep) <==> p in ps && keep(p)
  {
    if ps != [] {
      KeptFacts(ps[..|ps| - 1], keep);
      assert forall p :: p in ps <==> p in ps[..|ps| - 1] || p == ps[|ps| - 1];
    }
  }

  // `get_matching_providers`: the chain first, ordinary candidates when it yields none or is
  // to be skipped.
  function GetMatching(w: World, skipVirtual: bool): seq<Provider> {
    if !skipVirtual && w.virtual != [] then w.virtual else Ordinary(w.regular)
  }

  datatype Lookup = Found(providers: seq<Provider>) | NotFound | TooLong

  // The filters of `get_right_order_providers`, before ordering.
  function Available(w: World, skipVirtual: bool): Lookup {
    var matching := GetMatching(w, skipVirtual);
    var fitting := Kept(matching, w.fitsTokens);
    if matching != [] && fitting == [] then TooLong
    else if fitting == [] then NotFound
    else if !w.cooldown || |fitting| <= 1 then Found(fitting)
    else
      var warm := Kept(fitting, w.available);
      var fallback := Ordinary(w.regular);
      var last :=
        if warm != [] || forall i :: 0 <= i < |matching| ==> !matching[i].Virtual() then warm
        else if |fallback| > 1 then Kept(fallback, w.available)
        else fallback;
      if last == [] then NotFound else Found(last)
  }

  lemma {:induction false} OrdinaryMeans(ps: seq<Provider>)
    ensures |Ordinary(ps)| == |ps| && forall i :: 0 <= i < |ps| ==> Ordinary(ps)[i] == ps[i].(chain := None)
  {
    if ps != [] { OrdinaryMeans(ps[..|ps| - 1]); }
  }

  // At least two of the candidates pass.
  predicate TwoPass(ps: seq<Provider>, keep: Provider -> bool) {
    exists i, j :: 0 <= i < j < |ps| && keep(ps[i]) && keep(ps[j])
  }

  lemma {:induction false} KeptCount(ps: seq<Provider>, keep: Provider -> bool)
    ensures |Kept(ps, keep)| >= 1 <==> exists i :: 0 <= i < |ps| && keep(ps[i])
    ensures |Kept(ps, keep)| >= 2 <==> TwoPass(ps, keep)
  {
    if ps != [] {
      var init, last := ps[..|ps| - 1], |ps| - 1;
      KeptCount(init, keep);
      if TwoPass(ps, keep) && !TwoPass(init, keep) {
        var i, j :| 0 <= i < j < |ps| && keep(ps[i]) && keep(ps[j]);
        assert j == last && keep(init[i]);
      }
      if TwoPass(init, keep) {
        var i, j :| 0 <= i < j < |init| && keep(init[i]) && keep(init[j]);
        assert keep(ps[i]) && keep(ps[j]);
      }
      if keep(ps[last]) && exists i :: 0 <= i < |init| && keep(init[i]) {
        var i :| 0 <= i < |init| && keep(init[i]);
        assert keep(ps[i]) && keep(ps[last]);
      }
    }
  }

  // Exactly those of the candidates that pass were found, in their order, or none was.
  ghost predicate FoundThose(found: Lookup, ps: seq<Provider>, keep: Provider -> bool) {
    match found
    case Found(list) => list != [] && Filters(list, ps, keep)
    case NotFound => forall p :: p in ps ==> !keep(p)
    case TooLong => false
  }

  /** What a lookup finds. Of the virtual candidates, if there are any and they are not skipped, or else
      the ordinary ones: those that fit the request; with a cooldown configured and two or more that
      fit, those of them that are available, or when none is and the route was virtual, the ordinary
      candidates, the available ones if there are two or more. */
  lemma AvailableMeans(w: World, skipVirtual: bool)
    ensures var virtual := !skipVirtual && w.virtual != [];
      var matching := if virtual then w.virtual else Ordinary(w.regular);
      var regular := Ordinary(w.regular);
      var found := Available(w, skipVirtual);
      && (found.TooLong? <==> matching != [] && forall p :: p in matching ==> !w.fitsTokens(p))
      && (matching == [] ==> found.NotFound?)
      && (!found.TooLong? && (!w.cooldown || !TwoPass(matching, w.fitsTokens)) ==>
        FoundThose(found, matching, w.fitsTokens))
      && (w.cooldown && TwoPass(matching, w.fitsTokens) ==>
        if (exists p :: p in matching && w.fitsTokens(p) && w.available(p)) then
          FoundThose(found, matching, p => w.fitsTokens(p) && w.available(p))
        else if forall p :: p in matching ==> !p.Virtual() then found.NotFound?
        else FoundThose(found, regular, p => |regular| > 1 ==> w.available(p)))
  {
    hide Ordinary, Kept, FoundThose, TwoPass;
    var matching, regular := GetMatching(w, skipVirtual), Ordinary(w.regular);
    var fitting := Kept(matching, w.fitsTokens);
    KeptThose(matching, w.fitsTokens);
    KeptCount(matching, w.fitsTokens);
    TwiceKept(matching, w.fitsTokens, w.available);
    NoneVirtualHere(matching);
    if w.cooldown && |fitting| > 1 && Kept(fitting, w.available) == [] && exists p :: p in matching && p.Virtual() {
      if |regular| > 1 {
        KeptThose(regular, w.available);
        SameThose(Available(w, skipVirtual), regular, w.available, p => |regular| > 1 ==> w.available(p));
      } else {
        AllThose(regular, p => |regular| > 1 ==> w.available(p));
      }
    }
  }

  lemma NoneVirtualHere(ps: seq<Provider>)
    ensures (forall i :: 0 <= i < |ps| ==> !ps[i].Virtual()) <==> forall p :: p in ps ==> !p.Virtual()
  {
    assert forall i :: 0 <= i < |ps| ==> ps[i] in ps;
  }

  lemma {:induction false} KeptFilters(ps: seq<Provider>, keep: Provider -> bool)
    ensures Filters(Kept(ps, keep), ps, keep)
  {
    hide Filters;
    if ps == [] {
      FilterEmpty(keep);
    } else {
      var init, last := ps[..|ps| - 1], ps[|ps| - 1];
      KeptFilters(init, keep);
      FilterNext(Kept(init, keep), init, keep, last);
      assert ps == init + [last];
    }
  }

  lemma KeptThose(ps: seq<Provider>, keep: Provider -> bool)
    ensures var kept := Kept(ps, keep);
      && FoundThose(if kept == [] then NotFound else Found(kept), ps, keep)
      && (kept == [] <==> forall p :: p in ps ==> !keep(p))
  {
    hide Kept, Filters;
    KeptFacts(ps, keep);
    KeptFilters(ps, keep);
    var kept := Kept(ps, keep);
    assert kept != [] ==> kept[0] in kept;
  }

  // Two filters in a row are one.
  lemma {:induction false} KeptTwice(ps: seq<Provider>, a: Provider -> bool, b: Provider -> bool,
      both: Provider -> bool)
    requires forall p :: p in ps ==> both(p) == (a(p) && b(p))
    ensures Kept(Kept(ps, a), b) == Kept(ps, both)
  {
    if ps != [] {
      var init, last := ps[..|ps| - 1], ps[|ps| - 1];
      KeptTwice(init, a, b, both);
      var fit := Kept(init, a);
      assert last in ps && (fit + [last])[..|fit|] == fit;
    }
  }

  lemma TwiceKept(ps: seq<Provider>, a: Provider -> bool, b: Provider -> bool)
    ensures var kept := Kept(Kept(ps, a), b);
      && FoundThose(if kept == [] then NotFound else Found(kept), ps, p => a(p) && b(p))
      && (kept != [] <==> exists p :: p in ps && a(p) && b(p))
  {
    hide Kept, FoundThose;
    var both := (p: Provider) => a(p) && b(p);
    KeptTwice(ps, a, b, both);
    KeptThose(ps, both);
    SameThose(if Kept(ps, both) == [] then NotFound else Found(Kept(ps, both)), ps, both, p => a(p) && b(p));
  }

  lemma SameThose(found: Lookup, ps: seq<Provider>, a: Provider -> bool, b: Provider -> bool)
    requires FoundThose(found, ps, a) && forall p :: p in ps ==> a(p) == b(p)
    ensures FoundThose(found, ps, b)
  {
    hide Filters;
    if found.Found? { FilterSame(found.providers, ps, a, b); }
  }

  lemma AllThose(ps: seq<Provider>, keep: Provider -> bool)
    requires forall p :: p in ps ==> keep(p)
    ensures FoundThose(if ps == [] then NotFound else Found(ps), ps, keep)
  {
    KeptFilters(ps, keep);
    KeptAll(ps, keep);
  }

  lemma {:induction false} KeptAll(ps: seq<Provider>, keep: Provider -> bool)
    requires forall p :: p in ps ==> keep(p)
    ensures Kept(ps, keep) == ps
  {
    if ps != [] {
      KeptAll(ps[..|ps| - 1], keep);
      assert ps[|ps| - 1] in ps && ps == ps[..|ps| - 1] + [ps[|ps| - 1]];
    }
  }

  /** A lookup that skips the virtual route never yields a virtual candidate. */
  lemma SkipsVirtual(w: World)
    ensures Available(w, true).Found? ==> forall p :: p in Available(w, true).providers ==> !p.Virtual()
  {
  }
}
