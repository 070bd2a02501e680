/** Reserving a prepared raid by the ids of its providers, and hydrating it again from the registry
    (apps/orchestrator/src/raid-launch-reservations.ts). */
module Hydration {
  import opened Options
  import Planning

  type ProviderId = string

  /** A node with provider profiles, or with their ids. */
  datatype Node<P> = Node(task: Planning.Task, plan: Planning.Plan, primaries: seq<P>, reserves: seq<P>, children: seq<Node<P>>)

  type Registry<P> = map<ProviderId, P>

  function MapAll<P, Q>(f: P -> Q, ps: seq<P>): (qs: seq<Q>)
    ensures |qs| == |ps| && forall i :: 0 <= i < |ps| ==> qs[i] == f(ps[i])
  {
    if ps == [] then [] else [f(ps[0])] + MapAll(f, ps[1..])
  }

  /** `toReservedRaidNode`: the same tree with the ids of its providers. */
  function Reserve<P>(id: P -> ProviderId, node: Node<P>): Node<ProviderId>
    decreases node
  {
    Node(node.task, node.plan, MapAll(id, node.primaries), MapAll(id, node.reserves), ReserveAll(id, node.children))
  }

  function ReserveAll<P>(id: P -> ProviderId, nodes: seq<Node<P>>): seq<Node<ProviderId>>
    decreases nodes
  {
    if nodes == [] then [] else [Reserve(id, nodes[0])] + ReserveAll(id, nodes[1..])
  }

  /** `requireProvider` for each of them; `None` when one is no longer registered. */
  function RequireAll<P>(registry: Registry<P>, ids: seq<ProviderId>): (ps: Option<seq<P>>)
    ensures ps.Some? <==> forall i :: 0 <= i < |ids| ==> ids[i] in registry
    ensures ps.Some? ==> |ps.value| == |ids| && forall i :: 0 <= i < |ids| ==> ps.value[i] == registry[ids[i]]
  {
    if ids == [] then Some([])
    else if ids[0] !in registry then None
    else match RequireAll(registry, ids[1..])
         case None => None
         case Some(rest) => Some([registry[ids[0]]] + rest)
  }

  /** `fromReservedRaidNode` */
  function Hydrate<P>(registry: Registry<P>, node: Node<ProviderId>): Option<Node<P>>
    decreases node
  {
    match (RequireAll(registry, node.primaries), RequireAll(registry, node.reserves), HydrateAll(registry, node.children))
    case (Some(primaries), Some(reserves), Some(children)) => Some(Node(node.task, node.plan, primaries, reserves, children))
    case _ => None
  }

  function HydrateAll<P>(registry: Registry<P>, nodes: seq<Node<ProviderId>>): Option<seq<Node<P>>>
    decreases nodes
  {
    if nodes == [] then Some([])
    else match (Hydrate(registry, nodes[0]), HydrateAll(registry, nodes[1..]))
         case (Some(first), Some(rest)) => Some([first] + rest)
         case _ => None
  }

  /** All providers of a tree. */
  function Members<P>(node: Node<P>): seq<P>
    decreases node
  {
    node.primaries + node.reserves + AllMembers(node.children)
  }

  function AllMembers<P>(nodes: seq<Node<P>>): seq<P>
    decreases nodes
  {
    if nodes == [] then [] else Members(nodes[0]) + AllMembers(nodes[1..])
  }

  /** Hydrating fails if and only if somebody of the tree is no longer registered. */
  lemma {:induction false} HydrateIff<P>(registry: Registry<P>, node: Node<ProviderId>)
    ensures Hydrate(registry, node).Some? <==> forall p :: p in Members(node) ==> p in registry
    decreases node
  {
    HydrateAllIff(registry, node.children);
  }

  lemma {:induction false} HydrateAllIff<P>(registry: Registry<P>, nodes: seq<Node<ProviderId>>)
    ensures HydrateAll(registry, nodes).Some? <==> forall p :: p in AllMembers(nodes) ==> p in registry
    decreases nodes
  {
    if nodes != [] {
      HydrateIff(registry, nodes[0]);
      HydrateAllIff(registry, nodes[1..]);
    }
  }

  /** The id of a profile leads to that profile. */
  ghost predicate Found<P>(registry: Registry<P>, id: P -> ProviderId, p: P) {
    id(p) in registry && registry[id(p)] == p
  }

  /** A reserved tree hydrates to the prepared one if and only if the id of each of its providers
      still leads to the profile it was taken from. */
  lemma {:induction false} HydrateRoundTrip<P>(registry: Registry<P>, id: P -> ProviderId, node: Node<P>)
    ensures Hydrate(registry, Reserve(id, node)) == Some(node) <==> forall p :: p in Members(node) ==> Found(registry, id, p)
    decreases node
  {
    RequireRoundTrip(registry, id, node.primaries);
    RequireRoundTrip(registry, id, node.reserves);
    HydrateAllRoundTrip(registry, id, node.children);
    assert forall p :: p in Members(node) <==> p in node.primaries || p in node.reserves || p in AllMembers(node.children);
  }

  lemma {:induction false} HydrateAllRoundTrip<P>(registry: Registry<P>, id: P -> ProviderId, nodes: seq<Node<P>>)
    ensures HydrateAll(registry, ReserveAll(id, nodes)) == Some(nodes) <==> forall p :: p in AllMembers(nodes) ==> Found(registry, id, p)
    decreases nodes
  {
    if nodes != [] {
      hide Hydrate, Reserve, Members, Found;
      HydrateRoundTrip(registry, id, nodes[0]);
      HydrateAllRoundTrip(registry, id, nodes[1..]);
      HydrateFirst(registry, id, nodes);
      assert forall p :: p in AllMembers(nodes) <==> p in Members(nodes[0]) || p in AllMembers(nodes[1..]);
    }
  }

  lemma HydrateFirst<P>(registry: Registry<P>, id: P -> ProviderId, nodes: seq<Node<P>>)
    requires nodes != []
    ensures HydrateAll(registry, ReserveAll(id, nodes)) == Some(nodes) <==>
            && Hydrate(registry, Reserve(id, nodes[0])) == Some(nodes[0])
            && HydrateAll(registry, ReserveAll(id, nodes[1..])) == Some(nodes[1..])
  {
    hide Hydrate, Reserve;
    var reserved := ReserveAll(id, nodes);
    assert reserved[0] == Reserve(id, nodes[0]) && reserved[1..] == ReserveAll(id, nodes[1..]);
    match (Hydrate(registry, reserved[0]), HydrateAll(registry, reserved[1..]))
    case (Some(first), Some(rest)) =>
      assert nodes == [nodes[0]] + nodes[1..];
      assert ([first] + rest)[0] == first && ([first] + rest)[1..] == rest;
    case _ =>
  }

  lemma RequireRoundTrip<P>(registry: Registry<P>, id: P -> ProviderId, ps: seq<P>)
    ensures RequireAll(registry, MapAll(id, ps)) == Some(ps) <==> forall p :: p in ps ==> Found(registry, id, p)
  {
    var ids := MapAll(id, ps);
    if RequireAll(registry, ids) == Some(ps) {
      forall p | p in ps
        ensures Found(registry, id, p)
      {
        var i: nat :| i < |ps| && ps[i] == p;
        assert ids[i] == id(p);
      }
    }
    if forall p :: p in ps ==> Found(registry, id, p) {
      forall i | 0 <= i < |ids|
        ensures ids[i] in registry && registry[ids[i]] == ps[i]
      {
        assert ps[i] in ps;
      }
      assert RequireAll(registry, ids).value == ps;
    }
  }

  // ----- the quote of a single raid

  /** What a quote looks at; a hash stands for the rate card. */
  datatype Profile = Profile(id: ProviderId, endpoint: string, rateCard: string, verification: Option<string>, features: set<string>)

  datatype Quoted = Quoted(id: ProviderId, endpointHash: string, rateCard: string)
  datatype Quote = Quote(providers: seq<Quoted>, verification: Option<string>, features: seq<string>)

  /** `buildRaidQuoteSnapshot`, as far as it is looked at again. */
  function QuoteOf(hash: string -> string, verification: Option<string>, features: seq<string>, selected: seq<Profile>): Quote {
    Quote(MapAll((p: Profile) => Quoted(p.id, hash(p.endpoint), p.rateCard), selected), verification, features)
  }

  /** The profile is still as it was quoted and as the request requires. */
  predicate Keeps(hash: string -> string, quote: Quote, q: Quoted, p: Profile) {
    && hash(p.endpoint) == q.endpointHash && p.rateCard == q.rateCard
    && (quote.verification.Some? && quote.verification.value != "" ==> p.verification == quote.verification)
    && forall f :: f in quote.features ==> f in p.features
  }

  /** The profiles by their ids. */
  function ById(selected: seq<Profile>): (current: map<ProviderId, Profile>)
    ensures forall x :: x in current ==> current[x] in selected && current[x].id == x
    ensures forall p :: p in selected ==> p.id in current
  {
    if selected == [] then map[]
    else
      var n := |selected| - 1;
      assert forall p :: p in selected <==> p in selected[..n] || p == selected[n];
      ById(selected[..n])[selected[n].id := selected[n]]
  }

  predicate QuoteHolds(hash: string -> string, quote: Quote, selected: seq<Profile>) {
    forall i :: 0 <= i < |quote.providers| ==>
      var q := quote.providers[i];
      q.id in ById(selected) && Keeps(hash, quote, q, ById(selected)[q.id])
  }

  /** `assertQuoteSnapshotStillValid` */
  method CheckQuote(hash: string -> string, quote: Quote, selected: seq<Profile>) returns (ok: bool)
    ensures ok <==> QuoteHolds(hash, quote, selected)
  {
    var current := ById(selected);
    for i := 0 to |quote.providers|
      invariant forall j :: 0 <= j < i ==>
                  var q := quote.providers[j]; q.id in current && Keeps(hash, quote, q, current[q.id])
    {
      var q := quote.providers[i];
      if q.id !in current {
        return false;
      }
      var p := current[q.id];
      if hash(p.endpoint) != q.endpointHash || p.rateCard != q.rateCard {
        return false;
      }
      if quote.verification.Some? && quote.verification.value != "" && p.verification != quote.verification {
        return false;
      }
      for k := 0 to |quote.features|
        invariant forall j :: 0 <= j < k ==> quote.features[j] in p.features
      {
        if quote.features[k] !in p.features {
          return false;
        }
      }
      assert Keeps(hash, quote, q, p);
    }
    ok := true;
  }

  /** Every profile is registered under its own id. */
  predicate RegistryOk(registry: Registry<Profile>) {
    forall x :: x in registry ==> registry[x].id == x
  }

  function IdOf(p: Profile): ProviderId {
    p.id
  }

  /** `fromReservedSelectedProviders` for a single raid that was quoted with these profiles: it is
      hydrated if and only if each of them is still registered, with the same endpoint and rate
      card, and meets what the request requires; then with the registered profiles. */
  method HydrateQuoted(hash: string -> string, registry: Registry<Profile>, verification: Option<string>, features: seq<string>,
                       primaries: seq<Profile>, reserves: seq<Profile>)
    returns (r: Option<(seq<Profile>, seq<Profile>)>)
    requires RegistryOk(registry)
    ensures var quote := QuoteOf(hash, verification, features, primaries + reserves);
            r.Some? <==> forall p :: p in primaries + reserves ==>
                           p.id in registry && Keeps(hash, quote, Quoted(p.id, hash(p.endpoint), p.rateCard), registry[p.id])
    ensures r.Some? ==>
              && |r.value.0| == |primaries| && |r.value.1| == |reserves|
              && (forall i :: 0 <= i < |primaries| ==> primaries[i].id in registry && r.value.0[i] == registry[primaries[i].id])
              && (forall i :: 0 <= i < |reserves| ==> reserves[i].id in registry && r.value.1[i] == registry[reserves[i].id])
  {
    hide Keeps, QuoteHolds;
    var selected := primaries + reserves;
    var quote := QuoteOf(hash, verification, features, selected);
    var first, second := RequireAll(registry, MapAll(IdOf, primaries)), RequireAll(registry, MapAll(IdOf, reserves));
    if first.None? || second.None? {
      SomebodyGone(registry, primaries, reserves);
      return None;
    }
    QuoteIff(hash, registry, quote, selected, first.value + second.value);
    var ok := CheckQuote(hash, quote, first.value + second.value);
    r := if ok then Some((first.value, second.value)) else None;
  }

  lemma SomebodyGone(registry: Registry<Profile>, primaries: seq<Profile>, reserves: seq<Profile>)
    requires RequireAll(registry, MapAll(IdOf, primaries)).None? || RequireAll(registry, MapAll(IdOf, reserves)).None?
    ensures exists p :: p in primaries + reserves && p.id !in registry
  {
    if RequireAll(registry, MapAll(IdOf, primaries)).None? {
      var i: nat :| i < |primaries| && MapAll(IdOf, primaries)[i] !in registry;
      assert primaries[i] in primaries + reserves;
    } else {
      var i: nat :| i < |reserves| && MapAll(IdOf, reserves)[i] !in registry;
      assert reserves[i] in primaries + reserves;
    }
  }

  lemma QuoteIff(hash: string -> string, registry: Registry<Profile>, quote: Quote, selected: seq<Profile>, found: seq<Profile>)
    requires RegistryOk(registry) && quote == QuoteOf(hash, quote.verification, quote.features, selected)
    requires |found| == |selected| && forall i :: 0 <= i < |found| ==> selected[i].id in registry && found[i] == registry[selected[i].id]
    ensures QuoteHolds(hash, quote, found) <==>
            forall p :: p in selected ==> Keeps(hash, quote, Quoted(p.id, hash(p.endpoint), p.rateCard), registry[p.id])
  {
    hide Keeps;
    forall i | 0 <= i < |selected|
      ensures selected[i].id in ById(found) && ById(found)[selected[i].id] == registry[selected[i].id]
    {
      assert found[i] in found;
      var p := ById(found)[selected[i].id];
      var j: nat :| j < |found| && found[j] == p;
    }
    forall i | 0 <= i < |selected|
      ensures quote.providers[i] == Quoted(selected[i].id, hash(selected[i].endpoint), selected[i].rateCard)
    {
    }
  }
}
