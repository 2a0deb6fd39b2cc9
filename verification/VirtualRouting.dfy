/**
 `resolve_virtual_model` of `core/virtual_routing.py`, and the path of its candidates through
 filtering, ordering and the attempt list.

 Configuration values are taken as already read: names trimmed, switches as Booleans, a node
 that is no mapping or of another type as `OtherNode`.
 */
module VirtualRouting {
  import opened Collections
  import opened Providers
  import opened Routing
  import opened AttemptProviders

  /** A configured channel; `models` is its `_model_dict_cache`, from outward to upstream names. */
  datatype Channel = Channel(
    name: string, enabled: bool, models: map<string, string>,
    prefix: string, poolSharing: bool, weight: int, byok: bool)

  datatype Node =
    | ModelNode(value: string)
    | ChannelNode(value: string, model: string)  // `model` already defaults to the virtual name
    | OtherNode

  datatype VirtualModel = VirtualModel(enabled: bool, chain: seq<Node>)

  // ---------- matching one channel ----------

  predicate IsPrefix(prefix: string, s: string) { prefix <= s }

  /** `_match_provider_model`: the upstream name of `model` in the channel, directly or, where
      the channel shares its pool, under its own prefix. */
  function MatchModel(channel: Channel, model: string): Option<string> {
    if model == "" then None
    else if model in channel.models then Some(channel.models[model])
    else
      var pooled := channel.prefix + model;
      if channel.prefix == "" || !channel.poolSharing || IsPrefix(channel.prefix, model) then None
      else if pooled in channel.models then Some(channel.models[pooled])
      else None
  }

  function Candidate(channel: Channel, upstream: string, position: nat): Provider {
    Provider(channel.name, channel.weight, Some(position), channel.byok, upstream)
  }

  // ---------- what a node stands for ----------

  // The matches of a model node among `channels`, in order.
  function ModelMatches(channels: seq<Channel>, model: string, position: nat): seq<Provider> {
    if channels == [] then []
    else
      var init, last := ModelMatches(channels[..|channels| - 1], model, position), channels[|channels| - 1];
      var upstream := MatchModel(last, model);
      if last.enabled && upstream.Some? then init + [Candidate(last, upstream.value, position)] else init
  }

  // The one match of a channel node: the first enabled channel of that name, or nothing.
  function ChannelMatches(channels: seq<Channel>, name: string, model: string, position: nat): seq<Provider> {
    if channels == [] then []
    else if channels[0].enabled && channels[0].name == name then
      var upstream := MatchModel(channels[0], model);
      if upstream.Some? then [Candidate(channels[0], upstream.value, position)] else []
    else ChannelMatches(channels[1..], name, model, position)
  }

  function NodeMatches(channels: seq<Channel>, node: Node, position: nat): seq<Provider> {
    match node
    case ModelNode(value) => if value == "" then [] else ModelMatches(channels, value, position)
    case ChannelNode(value, model) => if value == "" then [] else ChannelMatches(channels, value, model, position)
    case OtherNode => []
  }

  // Candidates without a name are never taken.
  function Usable(ps: seq<Provider>): seq<Provider> {
    if ps == [] then []
    else
      var init, last := Usable(ps[..|ps| - 1]), ps[|ps| - 1];
      if last.name == "" then init else init + [last]
  }

  // All the matches of the first `k` nodes, in chain order.
  function ChainMatches(channels: seq<Channel>, chain: seq<Node>, k: nat): seq<Provider>
    requires k <= |chain|
  {
    if k == 0 then [] else ChainMatches(channels, chain, k - 1) + Usable(NodeMatches(channels, chain[k - 1], k - 1))
  }

  // ---------- facts on matches ----------

  lemma {:induction false} MatchesAt(channels: seq<Channel>, node: Node, position: nat)
    ensures forall p :: p in NodeMatches(channels, node, position) ==> p.chain == Some(position)
  {
    match node
    case ModelNode(value) => ModelMatchesAt(channels, value, position);
    case ChannelNode(value, model) => ChannelMatchesAt(channels, value, model, position);
    case OtherNode =>
  }

  lemma {:induction false} ModelMatchesAt(channels: seq<Channel>, model: string, position: nat)
    ensures forall p :: p in ModelMatches(channels, model, position) ==> p.chain == Some(position)
  {
    if channels != [] { ModelMatchesAt(channels[..|channels| - 1], model, position); }
  }

  lemma {:induction false} ChannelMatchesAt(channels: seq<Channel>, name: string, model: string, position: nat)
    ensures forall p :: p in ChannelMatches(channels, name, model, position) ==> p.chain == Some(position)
  {
    if channels != [] && !(channels[0].enabled && channels[0].name == name) {
      ChannelMatchesAt(channels[1..], name, model, position);
    }
  }

  lemma {:induction false} UsableFacts(ps: seq<Provider>)
    ensures forall p :: p in Usable(ps) <==> p in ps && p.name != ""
  {
    if ps != [] {
      UsableFacts(ps[..|ps| - 1]);
      assert forall p :: p in ps <==> p in ps[..|ps| - 1] || p == ps[|ps| - 1];
    }
  }

  // Node `k` of the chain matches a channel of this name.
  predicate MatchedAt(channels: seq<Channel>, chain: seq<Node>, name: string, k: nat) {
    k < |chain| && name != "" && HasName(NodeMatches(channels, chain[k], k), name)
  }

  lemma {:induction false} ChainMatchesFacts(channels: seq<Channel>, chain: seq<Node>, k: nat)
    requires k <= |chain|
    ensures ByPriority(ChainMatches(channels, chain, k))
    ensures forall p :: p in ChainMatches(channels, chain, k) ==> p.Virtual() && p.Priority() < k
    ensures forall p :: p in ChainMatches(channels, chain, k) ==> MatchedAt(channels, chain, p.name, p.Priority())
    ensures forall name, j: nat :: j < k && MatchedAt(channels, chain, name, j) ==>
      exists p :: p in ChainMatches(channels, chain, k) && p.name == name && p.Priority() == j
  {
    hide NodeMatches, HasName, Usable;
    if k > 0 {
      ChainMatchesFacts(channels, chain, k - 1);
      var before, here := ChainMatches(channels, chain, k - 1), NodeMatches(channels, chain[k - 1], k - 1);
      MatchesAt(channels, chain[k - 1], k - 1);
      UsableFacts(here);
      forall p | p in Usable(here)
        ensures MatchedAt(channels, chain, p.name, k - 1)
      {
        HasNameMeans(here, p.name);
      }
      forall name | HasName(here, name) && name != ""
        ensures exists p :: p in Usable(here) && p.name == name && p.Priority() == k - 1
      {
        HasNameMeans(here, name);
        var i :| 0 <= i < |here| && here[i].name == name;
        assert here[i] in here;
      }
      ConcatSorted(before, Usable(here));
    }
  }

  lemma ConcatSorted(a: seq<Provider>, b: seq<Provider>)
    requires ByPriority(a) && ByPriority(b)
    requires forall p, q :: p in a && q in b ==> p.Priority() <= q.Priority()
    ensures ByPriority(a + b)
  {
    forall i, j | 0 <= i < j < |a + b|
      ensures (a + b)[i].Priority() <= (a + b)[j].Priority()
    {
      if i < |a| && |a| <= j {
        assert a[i] in a && b[j - |a|] in b;
      }
    }
  }

  // ---------- resolution ----------

  /** The candidates of a virtual model: in chain order, each channel name once, at the earliest
      node that matches it, and every matched name present. */
  ghost predicate ChainCandidates(channels: seq<Channel>, chain: seq<Node>, resolved: seq<Provider>) {
    && ByPriority(resolved) && DistinctNames(resolved)
    && (forall p :: p in resolved ==> p.Virtual() && EarliestMatch(channels, chain, p))
    && (forall name, k: nat :: MatchedAt(channels, chain, name, k) ==> HasName(resolved, name))
  }

  ghost predicate EarliestMatch(channels: seq<Channel>, chain: seq<Node>, p: Provider) {
    && MatchedAt(channels, chain, p.name, p.Priority())
    && forall k: nat :: k < p.Priority() ==> !MatchedAt(channels, chain, p.name, k)
  }

  lemma ResolvedFacts(channels: seq<Channel>, chain: seq<Node>)
    ensures ChainCandidates(channels, chain, FirstByName(ChainMatches(channels, chain, |chain|)))
  {
    hide FirstByName, ChainMatches, HasName, MatchedAt;
    var all := ChainMatches(channels, chain, |chain|);
    var resolved := FirstByName(all);
    ChainMatchesFacts(channels, chain, |chain|);
    FirstByNameFacts(all);
    UniqueNames(all, resolved);
    FirstKeepsPriority(all, resolved);
    forall p | p in resolved
      ensures EarliestMatch(channels, chain, p)
    {
      forall k: nat | k < p.Priority()
        ensures !MatchedAt(channels, chain, p.name, k)
      {
        Bounded(channels, chain, p.name, k);
      }
    }
    forall name, k: nat | MatchedAt(channels, chain, name, k)
      ensures HasName(resolved, name)
    {
      Bounded(channels, chain, name, k);
      var q :| q in all && q.name == name && q.Priority() == k;
      HasNameMeans(all, name);
    }
  }

  lemma Bounded(channels: seq<Channel>, chain: seq<Node>, name: string, k: nat)
    ensures MatchedAt(channels, chain, name, k) ==> k < |chain|
  {
  }

  // ---------- the same said of nodes and channels ----------

  /** The channel serves the model under this upstream name: it lists the model, or it shares its pool
      and lists it behind its own prefix, which the model does not already bear. */
  predicate Serves(c: Channel, model: string, upstream: string) {
    model != "" &&
    if model in c.models then c.models[model] == upstream
    else
      && c.prefix != "" && c.poolSharing && !(c.prefix <= model)
      && c.prefix + model in c.models && c.models[c.prefix + model] == upstream
  }

  /** The node stands for channel `i` under this upstream name: a model node for every enabled channel
      that serves the model, a channel node for the first enabled channel of its name if that
      serves the node's model. */
  predicate StandsFor(channels: seq<Channel>, node: Node, i: nat, upstream: string) {
    && i < |channels| && channels[i].enabled && channels[i].name != ""
    && match node
    case ModelNode(value) => Serves(channels[i], value, upstream)
    case ChannelNode(value, model) =>
      && channels[i].name == value && Serves(channels[i], model, upstream)
      && forall j :: 0 <= j < i ==> !(channels[j].enabled && channels[j].name == value)
    case OtherNode => false
  }

  // A node of the chain and a channel.
  datatype Place = Place(node: nat, channel: nat)

  predicate Earlier(a: Place, b: Place) {
    a.node < b.node || (a.node == b.node && a.channel < b.channel)
  }

  // `p` is the candidate for channel `i` at this node.
  predicate IsAt(channels: seq<Channel>, node: Node, position: nat, i: nat, p: Provider) {
    && StandsFor(channels, node, i, p.upstream)
    && p == Provider(channels[i].name, channels[i].weight, Some(position), channels[i].byok, p.upstream)
  }

  predicate IsCandidate(channels: seq<Channel>, chain: seq<Node>, at: Place, p: Provider) {
    at.node < |chain| && IsAt(channels, chain[at.node], at.node, at.channel, p)
  }

  // All the candidates of the first `k` nodes, node by node and channel by channel.
  ghost predicate AllCandidates(channels: seq<Channel>, chain: seq<Node>, k: nat, ps: seq<Provider>,
      places: seq<Place>) {
    && |places| == |ps|
    && (forall a :: 0 <= a < |ps| ==> IsCandidate(channels, chain, places[a], ps[a]) && places[a].node < k)
    && (forall a, b :: 0 <= a < b < |ps| ==> Earlier(places[a], places[b]))
    && forall at: Place, p: Provider {:trigger IsCandidate(channels, chain, at, p)} ::
      at.node < k && IsCandidate(channels, chain, at, p) ==> exists a :: 0 <= a < |ps| && places[a] == at
  }

  /** What a chain resolves to: candidates node by node and channel by channel, each name once, and for
      every candidate the first of its name. */
  ghost predicate ResolvedSo(channels: seq<Channel>, chain: seq<Node>, resolved: seq<Provider>, places: seq<Place>) {
    && |places| == |resolved| && DistinctNames(resolved)
    && (forall a :: 0 <= a < |resolved| ==> IsCandidate(channels, chain, places[a], resolved[a]))
    && (forall a, b :: 0 <= a < b < |resolved| ==> Earlier(places[a], places[b]))
    && forall at: Place, p: Provider {:trigger IsCandidate(channels, chain, at, p)} ::
      IsCandidate(channels, chain, at, p) ==>
        exists a :: 0 <= a < |resolved| && resolved[a].name == p.name && !Earlier(at, places[a])
  }

  lemma MatchServes(c: Channel, model: string)
    ensures forall upstream :: Serves(c, model, upstream) <==> MatchModel(c, model) == Some(upstream)
  {
  }

  // The candidates of one node are those of the channels `found`, in their order.
  ghost predicate NodeCandidates(channels: seq<Channel>, node: Node, position: nat, ps: seq<Provider>,
      found: seq<nat>) {
    && |found| == |ps|
    && (forall a :: 0 <= a < |ps| ==> IsAt(channels, node, position, found[a], ps[a]))
    && (forall a :: 0 <= a < |ps| ==> found[a] < |channels|)
    && (forall a, b :: 0 <= a < b < |ps| ==> found[a] < found[b])
    && forall i: nat, p :: IsAt(channels, node, position, i, p) ==> Holds(found, i)
  }

  predicate Holds(found: seq<nat>, i: nat) {
    exists a :: 0 <= a < |found| && found[a] == i
  }

  lemma HoldsMore(found: seq<nat>, last: nat)
    ensures forall i: nat :: Holds(found, i) ==> Holds(found + [last], i)
    ensures Holds(found + [last], last)
  {
    assert (found + [last])[|found|] == last;
    forall i: nat | Holds(found, i)
      ensures Holds(found + [last], i)
    {
      var a :| 0 <= a < |found| && found[a] == i;
      assert (found + [last])[a] == i;
    }
  }

  // One channel more, which the node stands for with this candidate or not at all.
  lemma NodeAppend(init: seq<Channel>, last: Channel, node: Node, position: nat, before: seq<Provider>, found: seq<nat>,
      hit: Option<Provider>)
    requires NodeCandidates(init, node, position, before, found)
    requires forall i: nat, p :: i < |init| ==>
      (IsAt(init + [last], node, position, i, p) <==> IsAt(init, node, position, i, p))
    requires forall i: nat, p :: IsAt(init + [last], node, position, i, p) ==> i <= |init|
    requires forall p :: IsAt(init + [last], node, position, |init|, p) <==> hit == Some(p)
    ensures hit.None? ==> NodeCandidates(init + [last], node, position, before, found)
    ensures hit.Some? ==> NodeCandidates(init + [last], node, position, before + [hit.value], found + [|init|])
  {
    hide IsAt, Holds;
    HoldsMore(found, |init|);
  }

  lemma {:induction false} ModelCandidates(channels: seq<Channel>, model: string, position: nat)
    returns (found: seq<nat>)
    requires model != ""
    ensures NodeCandidates(channels, ModelNode(model), position, Usable(ModelMatches(channels, model, position)), found)
  {
    hide MatchModel, Serves, NodeCandidates, StandsFor, IsAt;
    if channels == [] {
      found := [];
      NobodyStands(ModelNode(model), position);
    } else {
      var init, last := channels[..|channels| - 1], channels[|channels| - 1];
      assert channels == init + [last];
      found := ModelCandidates(init, model, position);
      ModelNodeWider(init, last, model, position);
      var upstream := MatchModel(last, model);
      var stands := last.enabled && last.name != "" && upstream.Some?;
      var hit := if stands then Some(Candidate(last, upstream.value, position)) else None;
      NodeAppend(init, last, ModelNode(model), position, Usable(ModelMatches(init, model, position)), found, hit);
      if last.enabled && upstream.Some? {
        UsableAppend(ModelMatches(init, model, position), Candidate(last, upstream.value, position));
      }
      if hit.Some? { found := found + [|init|]; }
    }
  }

  lemma NobodyStands(node: Node, position: nat)
    ensures NodeCandidates([], node, position, Usable([]), [])
  {
  }

  // What a model node stands for does not depend on the channels behind.
  lemma ModelNodeWider(init: seq<Channel>, last: Channel, model: string, position: nat)
    requires model != ""
    ensures var node, channels := ModelNode(model), init + [last];
      && (forall i: nat, p :: i < |init| ==>
        (IsAt(channels, node, position, i, p) <==> IsAt(init, node, position, i, p)))
      && (forall i: nat, p :: IsAt(channels, node, position, i, p) ==> i <= |init|)
      && forall p :: IsAt(channels, node, position, |init|, p) <==>
        last.enabled && last.name != "" && MatchModel(last, model).Some?
        && p == Candidate(last, MatchModel(last, model).value, position)
  {
    hide Serves, MatchModel;
    MatchServes(last, model);
  }

  // The first enabled channel of a name.
  lemma {:induction false} FirstChannel(channels: seq<Channel>, name: string, model: string, position: nat)
    returns (first: Option<nat>)
    ensures first.Some? ==>
      && first.value < |channels| && channels[first.value].enabled && channels[first.value].name == name
      && (forall j :: 0 <= j < first.value ==> !(channels[j].enabled && channels[j].name == name))
      && var upstream := MatchModel(channels[first.value], model);
        ChannelMatches(channels, name, model, position) ==
          if upstream.Some? then [Candidate(channels[first.value], upstream.value, position)] else []
    ensures first.None? ==>
      && (forall j :: 0 <= j < |channels| ==> !(channels[j].enabled && channels[j].name == name))
      && ChannelMatches(channels, name, model, position) == []
  {
    hide MatchModel;
    if channels == [] {
      first := None;
    } else if channels[0].enabled && channels[0].name == name {
      first := Some(0);
    } else {
      var rest := channels[1..];
      var later := FirstChannel(rest, name, model, position);
      assert forall j :: 1 <= j < |channels| ==> channels[j] == rest[j - 1];
      first := if later.Some? then Some(later.value + 1) else None;
    }
  }

  lemma ChannelCandidates(channels: seq<Channel>, name: string, model: string, position: nat) returns (found: seq<nat>)
    requires name != ""
    ensures NodeCandidates(channels, ChannelNode(name, model), position,
      Usable(ChannelMatches(channels, name, model, position)), found)
  {
    hide MatchModel, Serves, ChannelMatches, Usable;
    UsableFew();
    var first := FirstChannel(channels, name, model, position);
    found := [];
    if first.Some? {
      MatchServes(channels[first.value], model);
      if MatchModel(channels[first.value], model).Some? {
        found := [first.value];
      }
    }
    forall i: nat, p | IsAt(channels, ChannelNode(name, model), position, i, p)
      ensures Holds(found, i)
    {
      assert first.Some? && i == first.value;
      assert found[0] == i;
    }
  }

  lemma UsableFew()
    ensures Usable([]) == [] && forall p: Provider :: p.name != "" ==> Usable([p]) == [p]
  {
    forall p: Provider | p.name != ""
      ensures Usable([p]) == [p]
    {
      UsableAppend([], p);
      assert [] + [p] == [p];
    }
  }

  lemma NodeCandidatesOf(channels: seq<Channel>, node: Node, position: nat) returns (found: seq<nat>)
    ensures NodeCandidates(channels, node, position, Usable(NodeMatches(channels, node, position)), found)
  {
    hide MatchModel, Serves, ModelMatches, ChannelMatches, Usable;
    found := [];
    UsableFew();
    match node {
      case ModelNode(value) =>
        if value != "" { found := ModelCandidates(channels, value, position); } else { Nameless(channels); }
      case ChannelNode(value, model) => if value != "" { found := ChannelCandidates(channels, value, model, position); }
      case OtherNode =>
    }
  }

  lemma Nameless(channels: seq<Channel>)
    ensures forall i: nat, upstream :: !StandsFor(channels, ModelNode(""), i, upstream)
  {
  }

  lemma {:induction false} ChainCandidatesOf(channels: seq<Channel>, chain: seq<Node>, k: nat)
    returns (places: seq<Place>)
    requires k <= |chain|
    ensures AllCandidates(channels, chain, k, ChainMatches(channels, chain, k), places)
  {
    hide IsAt, NodeMatches, Usable, NodeCandidates, AllCandidates;
    if k == 0 {
      places := [];
      NoNodes(channels, chain);
    } else {
      var before := ChainCandidatesOf(channels, chain, k - 1);
      var found := NodeCandidatesOf(channels, chain[k - 1], k - 1);
      places := NodeJoins(channels, chain, k - 1, ChainMatches(channels, chain, k - 1), before,
        Usable(NodeMatches(channels, chain[k - 1], k - 1)), found);
    }
  }

  lemma NoNodes(channels: seq<Channel>, chain: seq<Node>)
    ensures AllCandidates(channels, chain, 0, [], [])
  {
  }

  // The candidates of node `k` follow those of the nodes before.
  lemma NodeJoins(channels: seq<Channel>, chain: seq<Node>, k: nat, ps: seq<Provider>, before: seq<Place>,
      here: seq<Provider>, found: seq<nat>) returns (places: seq<Place>)
    requires k < |chain| && AllCandidates(channels, chain, k, ps, before)
    requires NodeCandidates(channels, chain[k], k, here, found)
    ensures AllCandidates(channels, chain, k + 1, ps + here, places)
  {
    hide IsAt;
    places := before + seq(|found|, a requires 0 <= a < |found| => Place(k, found[a]));
    forall a | 0 <= a < |ps + here|
      ensures IsCandidate(channels, chain, places[a], (ps + here)[a]) && places[a].node < k + 1
    {
    }
    forall at: Place, p: Provider | at.node < k + 1 && IsCandidate(channels, chain, at, p)
      ensures exists a :: 0 <= a < |ps + here| && places[a] == at
    {
      if at.node < k {
        var a :| 0 <= a < |ps| && before[a] == at;
        assert places[a] == at;
      } else {
        assert Holds(found, at.channel);
        var a :| 0 <= a < |found| && found[a] == at.channel;
        assert places[|before| + a] == at;
      }
    }
  }

  /** The candidates of a chain, the first of each name, are what it resolves to. */
  lemma ResolvedAre(channels: seq<Channel>, chain: seq<Node>) returns (places: seq<Place>)
    ensures ResolvedSo(channels, chain, FirstByName(ChainMatches(channels, chain, |chain|)), places)
  {
    hide IsCandidate, FirstByName, ChainMatches, FirstIndex, AllCandidates, FirstOccurrences, HasName;
    var all := ChainMatches(channels, chain, |chain|);
    var resolved := FirstByName(all);
    var whole := ChainCandidatesOf(channels, chain, |chain|);
    FirstByNameFacts(all);
    UniqueNames(all, resolved);
    AllOrdered(channels, chain, all, whole);
    places := seq(|resolved|, a requires 0 <= a < |resolved| => whole[FirstIndex(all, resolved[a].name)]);
    forall at: Place, p: Provider | IsCandidate(channels, chain, at, p)
      ensures exists a :: 0 <= a < |resolved| && resolved[a].name == p.name && !Earlier(at, places[a])
    {
      var c := InChain(channels, chain, all, whole, at, p);
      HasNameMeans(all, p.name);
      HasNameMeans(resolved, p.name);
      var a :| 0 <= a < |resolved| && resolved[a].name == p.name;
      var first := FirstIndex(all, p.name);
      assert first <= c;
      assert first < c ==> Earlier(whole[first], whole[c]);
    }
  }

  lemma AllOrdered(channels: seq<Channel>, chain: seq<Node>, all: seq<Provider>, whole: seq<Place>)
    requires AllCandidates(channels, chain, |chain|, all, whole)
    ensures |whole| == |all| && forall a, b :: 0 <= a < b < |all| ==> Earlier(whole[a], whole[b])
    ensures forall a :: 0 <= a < |all| ==> IsCandidate(channels, chain, whole[a], all[a])
  {
    hide IsCandidate;
  }

  lemma InChain(channels: seq<Channel>, chain: seq<Node>, all: seq<Provider>, whole: seq<Place>, at: Place, p: Provider)
    returns (c: nat)
    requires AllCandidates(channels, chain, |chain|, all, whole) && IsCandidate(channels, chain, at, p)
    ensures c < |all| && whole[c] == at && all[c].name == p.name
  {
    hide StandsFor;
    c :| c < |all| && whole[c] == at;
  }

  // `append_match`
  method AppendMatch(resolved: seq<Provider>, seen: set<string>, p: Provider, ghost all: seq<Provider>)
    returns (resolved': seq<Provider>, seen': set<string>, ghost all': seq<Provider>)
    requires resolved == FirstByName(all) && forall name :: name in seen <==> HasName(all, name)
    ensures all' == all + (if p.name == "" then [] else [p])
    ensures resolved' == FirstByName(all') && forall name :: name in seen' <==> HasName(all', name)
  {
    resolved', seen', all' := resolved, seen, all;
    if p.name == "" {
      assert all + [] == all;
      return;
    }
    FirstByNameAppend(all, p);
    all' := all + [p];
    if p.name in seen {
      return;
    }
    seen' := seen + {p.name};
    resolved' := resolved + [p];
  }

  /** `resolve_virtual_model`: None when the name is no virtual model, no candidates when it is
      disabled or unreadable, otherwise the candidates of its chain. */
  method ResolveVirtualModel(name: string, models: map<string, Option<VirtualModel>>, channels: seq<Channel>)
    returns (r: Option<seq<Provider>>)
    ensures r.None? <==> name !in models
    ensures r.Some? && (models[name].None? || !models[name].value.enabled) ==> r.value == []
    ensures r.Some? && models[name].Some? && models[name].value.enabled ==>
      && r.value == FirstByName(ChainMatches(channels, models[name].value.chain, |models[name].value.chain|))
      && ChainCandidates(channels, models[name].value.chain, r.value)
      && exists places :: ResolvedSo(channels, models[name].value.chain, r.value, places)
  {
    hide FirstByName, HasName, ModelMatches, ChannelMatches, Usable, ChainCandidates, ResolvedSo;
    if name !in models { return None; }
    if models[name].None? || !models[name].value.enabled { return Some([]); }
    var chain := models[name].value.chain;
    var resolved: seq<Provider> := [];
    var seen: set<string> := {};
    ghost var all: seq<Provider> := [];
    NoNames();
    for k := 0 to |chain|
      invariant all == ChainMatches(channels, chain, k)
      invariant resolved == FirstByName(all) && forall name :: name in seen <==> HasName(all, name)
    {
      match chain[k] {
        case ModelNode(value) =>
          NothingUsable(all);
          if value != "" {
            resolved, seen, all := ScanModel(channels, value, k, resolved, seen, all);
          }
        case ChannelNode(value, model) =>
          NothingUsable(all);
          if value != "" {
            resolved, seen, all := ScanChannel(channels, value, model, k, resolved, seen, all);
          }
        case OtherNode =>
          NothingUsable(all);
      }
    }
    ResolvedFacts(channels, chain);
    ghost var places := ResolvedAre(channels, chain);
    return Some(resolved);
  }

  lemma NothingUsable(all: seq<Provider>)
    ensures all + Usable([]) == all
  {
  }

  method ScanModel(channels: seq<Channel>, model: string, position: nat,
      resolved: seq<Provider>, seen: set<string>, ghost all: seq<Provider>)
    returns (resolved': seq<Provider>, seen': set<string>, ghost all': seq<Provider>)
    requires resolved == FirstByName(all) && forall name :: name in seen <==> HasName(all, name)
    ensures all' == all + Usable(ModelMatches(channels, model, position))
    ensures resolved' == FirstByName(all') && forall name :: name in seen' <==> HasName(all', name)
  {
    hide FirstByName, HasName, MatchModel;
    resolved', seen', all' := resolved, seen, all;
    for i := 0 to |channels|
      invariant all' == all + Usable(ModelMatches(channels[..i], model, position))
      invariant resolved' == FirstByName(all') && forall name :: name in seen' <==> HasName(all', name)
    {
      assert channels[..i + 1][..i] == channels[..i];
      var upstream := MatchModel(channels[i], model);
      if channels[i].enabled && upstream.Some? {
        var p := Candidate(channels[i], upstream.value, position);
        UsableAppend(ModelMatches(channels[..i], model, position), p);
        resolved', seen', all' := AppendMatch(resolved', seen', p, all');
      }
    }
    assert channels[..|channels|] == channels;
  }

  lemma UsableAppend(ps: seq<Provider>, last: Provider)
    ensures Usable(ps + [last]) == Usable(ps) + (if last.name == "" then [] else [last])
  {
    assert (ps + [last])[..|ps|] == ps;
  }

  method ScanChannel(channels: seq<Channel>, name: string, model: string, position: nat,
      resolved: seq<Provider>, seen: set<string>, ghost all: seq<Provider>)
    returns (resolved': seq<Provider>, seen': set<string>, ghost all': seq<Provider>)
    requires resolved == FirstByName(all) && forall n :: n in seen <==> HasName(all, n)
    ensures all' == all + Usable(ChannelMatches(channels, name, model, position))
    ensures resolved' == FirstByName(all') && forall n :: n in seen' <==> HasName(all', n)
  {
    hide FirstByName, HasName, MatchModel;
    resolved', seen', all' := resolved, seen, all;
    for i := 0 to |channels|
      invariant ChannelMatches(channels, name, model, position) == ChannelMatches(channels[i..], name, model, position)
      invariant resolved' == resolved && seen' == seen && all' == all
    {
      assert channels[i..][1..] == channels[i + 1..];
      if !channels[i].enabled || channels[i].name != name {
        continue;
      }
      var upstream := MatchModel(channels[i], model);
      if upstream.Some? {
        var p := Candidate(channels[i], upstream.value, position);
        UsableAppend([], p);
        assert [] + [p] == [p];
        resolved', seen', all' := AppendMatch(resolved', seen', p, all');
      }
      return;
    }
  }

  // ---------- from the chain to the attempt list ----------

  /** The attempt list of a virtual route, whatever the filters (blacklists, groups, cooldown,
      token limits) keep, however `random.sample`
      shuffles the survivors, and for all weights, algorithms and cursors: sorted by chain
      position, each provider at most once, at the earliest chain node that matches it, and
      except under lottery none of the survivors missing. */
  method VirtualAttempts(
      handler: ModelRequestHandler, name: string, chain: seq<Node>, channels: seq<Channel>,
      keep: Provider -> bool, shuffled: seq<Provider>, algorithm: Algorithm, draws: nat -> seq<string>, advance: bool)
    returns (attempts: seq<Provider>, ghost resolved: seq<Provider>, ghost places: seq<Place>)
    requires handler.Valid()
    requires multiset(shuffled) == multiset(Kept(FirstByName(ChainMatches(channels, chain, |chain|)), keep))
    modifies handler.cursors
    ensures handler.Valid()
    ensures ByPriority(attempts) && DistinctNames(attempts)
    ensures forall p :: p in attempts ==> keep(p) && p.Virtual() && EarliestMatch(channels, chain, p)
    ensures !algorithm.Lottery? ==>
      forall p :: p in FirstByName(ChainMatches(channels, chain, |chain|)) && keep(p) ==> p in attempts
    ensures ResolvedSo(channels, chain, resolved, places) && forall p :: p in attempts ==> p in resolved && keep(p)
    ensures !algorithm.Lottery? ==> forall p :: p in resolved && keep(p) ==> p in attempts
  {
    hide ResolvedSo;
    hide FirstByName, ChainMatches, HasName, EarliestMatch, ChainState, StartOf, CursorsAfter, Kept;
    var found := ResolveVirtualModel(name, map[name := Some(VirtualModel(true, chain))], channels);
    resolved := found.value;
    places :| ResolvedSo(channels, chain, resolved, places);
    var survivors := Kept(found.value, keep);
    KeptFacts(resolved, keep);
    assert forall p :: p in shuffled <==> p in survivors by {
      assert forall p :: p in shuffled <==> p in multiset(shuffled);
      assert forall p :: p in survivors <==> p in multiset(survivors);
    }
    var ordered := OrderCandidates(if algorithm.Random? then shuffled else survivors, algorithm, draws);
    attempts := handler.BuildAttemptProviders(ordered, name, algorithm, advance);
    if attempts != [] {
      assert attempts[0] in ordered;
    }
    forall p | p in ordered
      ensures p in attempts
    {
      SameName(resolved, ordered, attempts, p);
    }
  }

  // With distinct names a name pins down its provider.
  lemma SameName(resolved: seq<Provider>, ordered: seq<Provider>, attempts: seq<Provider>, p: Provider)
    requires DistinctNames(resolved) && p in ordered
    requires forall q :: q in ordered ==> q in resolved
    requires forall q :: q in attempts ==> q in ordered
    requires forall n :: HasName(attempts, n) <==> HasName(ordered, n)
    ensures p in attempts
  {
    HasNameMeans(ordered, p.name);
    HasNameMeans(attempts, p.name);
    var i :| 0 <= i < |attempts| && attempts[i].name == p.name;
    assert attempts[i] in attempts;
    var a :| 0 <= a < |resolved| && resolved[a] == p;
    var b :| 0 <= b < |resolved| && resolved[b] == attempts[i];
  }
}
