/** Preparing a hierarchical raid (apps/orchestrator/src/raid-launch.ts): a provider for every
    leaf, none of them twice, and a pool of others for later revisions. Discovery and selection
    are given. */
module Launch {
  import opened Options
  import opened Sequences
  import opened RaidState
  import opened Spawning
  import Planning

  const MIN_EXPERTS_FOR_RESERVES: nat := 6
  const MAX_ADAPTIVE_RESERVES: nat := 4
  const RESERVE_RATIO: nat := 5

  datatype Selection = Selection(primaries: seq<ProviderId>, reserves: seq<ProviderId>)

  type Discover = Planning.Task -> seq<ProviderId>
  type Select = (Planning.Task, seq<ProviderId>) -> Selection

  /** Selection takes nobody who was not offered, and nobody twice. */
  ghost predicate SelectOk(select: Select) {
    forall t, ps ::
      && NoDuplicates(select(t, ps).primaries)
      && (forall p :: p in select(t, ps).primaries || p in select(t, ps).reserves ==> p in ps)
  }

  /** `computeAdaptiveReserveExperts` */
  function ReserveExperts(total: nat): (n: nat)
    ensures n <= MAX_ADAPTIVE_RESERVES && n <= total
    ensures n == 0 <==> total < MIN_EXPERTS_FOR_RESERVES
    ensures n == 0 || n == 1 || n * 5 <= total
    ensures total >= 6 ==> n == 4 || total < (n + 1) * 5
  {
    if total < MIN_EXPERTS_FOR_RESERVES then 0 else Min(MAX_ADAPTIVE_RESERVES, Max(1, total / RESERVE_RATIO))
  }

  function Min(a: nat, b: nat): nat {
    if a <= b then a else b
  }

  function Max(a: nat, b: nat): nat {
    if a >= b then a else b
  }

  function Without(ps: seq<ProviderId>, taken: set<ProviderId>): (r: seq<ProviderId>)
    ensures forall p :: p in r <==> p in ps && p !in taken
    ensures NoDuplicates(ps) ==> NoDuplicates(r)
  {
    if ps == [] then []
    else
      var front := ps[..|ps| - 1];
      assert forall p :: p in ps <==> p in front || p == ps[|ps| - 1];
      Without(front, taken) + if ps[|ps| - 1] in taken then [] else [ps[|ps| - 1]]
  }

  lemma {:induction false} WithoutKeeps(ps: seq<ProviderId>, taken: set<ProviderId>)
    ensures Kept(ps, Without(ps, taken), (p: ProviderId) => p !in taken)
  {
    hide Kept;
    var keep := (p: ProviderId) => p !in taken;
    if ps == [] {
      KeptNothing(keep);
    } else {
      var n := |ps| - 1;
      WithoutKeeps(ps[..n], taken);
      KeptOneMore(ps[..n], Without(ps[..n], taken), keep, ps[n]);
      assert ps == ps[..n] + [ps[n]];
      AppendNothing(Without(ps[..n], taken));
    }
  }

  /** The prepared nodes are the planned ones, and every leaf has somebody. */
  predicate Staffed(prepared: seq<Prepared>, nodes: seq<Planning.Node>)
    decreases nodes
  {
    && |prepared| == |nodes|
    && (nodes == [] ||
        (&& prepared[0].task == nodes[0].task && prepared[0].plan == nodes[0].plan
         && (nodes[0].children == [] <==> prepared[0].chosen != [])
         && Staffed(prepared[0].children, nodes[0].children)
         && Staffed(prepared[1..], nodes[1..])))
  }

  lemma {:induction false} StaffedAppend(a: seq<Prepared>, b: seq<Prepared>, m: seq<Planning.Node>, n: seq<Planning.Node>)
    requires Staffed(a, m) && Staffed(b, n)
    ensures Staffed(a + b, m + n)
    decreases |a|
  {
    if a == [] {
      assert a + b == b && m + n == n;
    } else {
      assert (a + b)[1..] == a[1..] + b && (m + n)[1..] == m[1..] + n;
      StaffedAppend(a[1..], b, m[1..], n);
    }
  }

  lemma {:induction false} ReservelessAppend(a: seq<Prepared>, b: seq<Prepared>)
    requires Reserveless(a) && Reserveless(b)
    ensures Reserveless(a + b)
    decreases |a|
  {
    if a == [] {
      assert a + b == b;
    } else {
      assert (a + b)[1..] == a[1..] + b;
      ReservelessAppend(a[1..], b);
    }
  }

  /** Somebody chosen before and somebody chosen after are different people. */
  lemma NoDuplicatesAppend(a: seq<ProviderId>, b: seq<ProviderId>)
    requires NoDuplicates(a) && NoDuplicates(b) && Elements(a) !! Elements(b)
    ensures NoDuplicates(a + b) && Elements(a + b) == Elements(a) + Elements(b)
  {
    forall i, j | 0 <= i < j < |a + b|
      ensures (a + b)[i] != (a + b)[j]
    {
      if i < |a| <= j {
        assert a[i] in Elements(a) && b[j - |a|] in Elements(b);
      }
    }
  }

  // ----- who is chosen for the leaves, in order

  /** The tasks of the leaves. */
  function LeafTasks(nodes: seq<Planning.Node>): seq<Planning.Task>
    decreases nodes
  {
    if nodes == [] then []
    else (if nodes[0].children == [] then [nodes[0].task] else LeafTasks(nodes[0].children)) + LeafTasks(nodes[1..])
  }

  /** Whom selection takes for a task when `taken` are gone already. */
  function SelectedFor(task: Planning.Task, taken: set<ProviderId>, discover: Discover, select: Select): seq<ProviderId> {
    select(task, Without(discover(task), taken)).primaries
  }

  /** Whom it takes for one task after the other. */
  function ChosenBy(tasks: seq<Planning.Task>, reserved: set<ProviderId>, discover: Discover, select: Select): seq<ProviderId> {
    if tasks == [] then []
    else
      var before := ChosenBy(tasks[..|tasks| - 1], reserved, discover, select);
      before + SelectedFor(tasks[|tasks| - 1], reserved + Elements(before), discover, select)
  }

  /** For some task nobody is left. */
  predicate SomebodyLacks(tasks: seq<Planning.Task>, reserved: set<ProviderId>, discover: Discover, select: Select) {
    exists k :: 0 <= k < |tasks| &&
      SelectedFor(tasks[k], reserved + Elements(ChosenBy(tasks[..k], reserved, discover, select)), discover, select) == []
  }

  lemma {:induction false} LeafTasksAppend(a: seq<Planning.Node>, b: seq<Planning.Node>)
    ensures LeafTasks(a + b) == LeafTasks(a) + LeafTasks(b)
    decreases |a|
  {
    if a == [] {
      assert a + b == b;
    } else {
      assert (a + b)[1..] == a[1..] + b;
      LeafTasksAppend(a[1..], b);
    }
  }

  lemma LeafTasksOne(node: Planning.Node)
    ensures LeafTasks([node]) == if node.children == [] then [node.task] else LeafTasks(node.children)
  {
    assert [node][1..] == [];
  }

  lemma {:induction false} ChosenByAppend(a: seq<Planning.Task>, b: seq<Planning.Task>, reserved: set<ProviderId>, discover: Discover, select: Select)
    ensures var first := ChosenBy(a, reserved, discover, select);
            ChosenBy(a + b, reserved, discover, select) == first + ChosenBy(b, reserved + Elements(first), discover, select)
    decreases |b|
  {
    hide SelectedFor, Elements;
    var first := ChosenBy(a, reserved, discover, select);
    if b == [] {
      assert a + b == a && first + [] == first;
    } else {
      var n := |b| - 1;
      assert (a + b)[..|a + b| - 1] == a + b[..n];
      ChosenByAppend(a, b[..n], reserved, discover, select);
      var second := ChosenBy(b[..n], reserved + Elements(first), discover, select);
      TakenTwice(reserved, first, second);
      Associative(first, second, SelectedFor(b[n], reserved + Elements(first + second), discover, select));
    }
  }

  lemma TakenTwice(reserved: set<ProviderId>, a: seq<ProviderId>, b: seq<ProviderId>)
    ensures reserved + Elements(a + b) == reserved + Elements(a) + Elements(b)
  {
  }

  lemma LacksAppend(a: seq<Planning.Task>, b: seq<Planning.Task>, reserved: set<ProviderId>, discover: Discover, select: Select)
    ensures SomebodyLacks(a + b, reserved, discover, select) <==>
            || SomebodyLacks(a, reserved, discover, select)
            || SomebodyLacks(b, reserved + Elements(ChosenBy(a, reserved, discover, select)), discover, select)
  {
    hide SelectedFor, Elements, ChosenBy;
    var later := reserved + Elements(ChosenBy(a, reserved, discover, select));
    forall k | 0 <= k < |a|
      ensures (a + b)[..k] == a[..k] && (a + b)[k] == a[k]
    {
    }
    forall k | 0 <= k < |b|
      ensures (a + b)[|a| + k] == b[k]
      ensures reserved + Elements(ChosenBy((a + b)[..|a| + k], reserved, discover, select))
           == later + Elements(ChosenBy(b[..k], later, discover, select))
    {
      assert (a + b)[..|a| + k] == a + b[..k];
      ChosenByAppend(a, b[..k], reserved, discover, select);
      TakenTwice(reserved, ChosenBy(a, reserved, discover, select), ChosenBy(b[..k], later, discover, select));
    }
    if k: nat :| k < |b| && SelectedFor(b[k], later + Elements(ChosenBy(b[..k], later, discover, select)), discover, select) == [] {
      assert SelectedFor((a + b)[|a| + k], reserved + Elements(ChosenBy((a + b)[..|a| + k], reserved, discover, select)), discover, select) == [];
    }
    if k: nat :| k < |a + b| && SelectedFor((a + b)[k], reserved + Elements(ChosenBy((a + b)[..k], reserved, discover, select)), discover, select) == [] {
      if k >= |a| {
        assert (a + b)[|a| + (k - |a|)] == b[k - |a|];
      }
    }
  }

  lemma OneTask(task: Planning.Task, reserved: set<ProviderId>, discover: Discover, select: Select)
    ensures ChosenBy([task], reserved, discover, select) == SelectedFor(task, reserved, discover, select)
    ensures SomebodyLacks([task], reserved, discover, select) <==> SelectedFor(task, reserved, discover, select) == []
  {
    hide SelectedFor;
    NoTasks(reserved, discover, select);
    assert [task][..0] == [];
  }

  lemma NoTasks(reserved: set<ProviderId>, discover: Discover, select: Select)
    ensures ChosenBy([], reserved, discover, select) == [] && !SomebodyLacks([], reserved, discover, select)
    ensures reserved + Elements([]) == reserved && LeafTasks([]) == []
  {
  }

  /** `assignProvidersToGraph`, over the children of a node in turn; `None` if and only if selection
      has nobody for some leaf among those not yet taken. */
  method AssignAll(nodes: seq<Planning.Node>, reserved: set<ProviderId>, includeReserves: bool, discover: Discover, select: Select)
    returns (prepared: Option<seq<Prepared>>, taken: set<ProviderId>)
    requires SelectOk(select)
    ensures prepared.Some? ==>
              var chosen := Planning.Chosen(prepared.value);
              && Staffed(prepared.value, nodes) && NoDuplicates(chosen)
              && Elements(chosen) !! reserved && taken == reserved + Elements(chosen)
              && (!includeReserves ==> Reserveless(prepared.value))
    ensures prepared.None? <==> SomebodyLacks(LeafTasks(nodes), reserved, discover, select)
    ensures prepared.Some? ==> Planning.Chosen(prepared.value) == ChosenBy(LeafTasks(nodes), reserved, discover, select)
    decreases nodes, 1
  {
    hide SelectOk, NoDuplicates, Elements, Staffed, Planning.Chosen, Reserveless, LeafTasks, ChosenBy, SomebodyLacks;
    var done: seq<Prepared> := [];
    taken := reserved;
    NothingChosen(reserved);
    LeafNode();
    NoTasks(reserved, discover, select);
    for k := 0 to |nodes|
      invariant Staffed(done, nodes[..k]) && NoDuplicates(Planning.Chosen(done))
      invariant Elements(Planning.Chosen(done)) !! reserved && taken == reserved + Elements(Planning.Chosen(done))
      invariant !includeReserves ==> Reserveless(done)
      invariant Planning.Chosen(done) == ChosenBy(LeafTasks(nodes[..k]), reserved, discover, select)
      invariant !SomebodyLacks(LeafTasks(nodes[..k]), reserved, discover, select)
    {
      var one, next := AssignNode(nodes[k], taken, includeReserves, discover, select);
      assert nodes == nodes[..k] + [nodes[k]] + nodes[k + 1..];
      OneMoreNode(nodes[..k], nodes[k], nodes[k + 1..], reserved, discover, select);
      if one.None? {
        return None, next;
      }
      ChosenAppend(done, [one.value]);
      NoDuplicatesAppend(Planning.Chosen(done), Planning.Chosen([one.value]));
      StaffedAppend(done, [one.value], nodes[..k], [nodes[k]]);
      assert nodes[..k + 1] == nodes[..k] + [nodes[k]];
      if !includeReserves {
        ReservelessAppend(done, [one.value]);
      }
      done, taken := done + [one.value], next;
    }
    assert nodes[..|nodes|] == nodes;
    prepared := Some(done);
  }

  lemma OneMoreNode(done: seq<Planning.Node>, node: Planning.Node, left: seq<Planning.Node>, reserved: set<ProviderId>,
                    discover: Discover, select: Select)
    ensures var tasks := LeafTasks(done);
            var chosen := ChosenBy(tasks, reserved, discover, select);
            var taken := reserved + Elements(chosen);
            && ChosenBy(LeafTasks(done + [node]), reserved, discover, select)
               == chosen + ChosenBy(LeafTasks([node]), taken, discover, select)
            && (SomebodyLacks(LeafTasks(done + [node]), reserved, discover, select) <==>
                  SomebodyLacks(tasks, reserved, discover, select) || SomebodyLacks(LeafTasks([node]), taken, discover, select))
            && (SomebodyLacks(LeafTasks(done + [node]), reserved, discover, select) ==>
                  SomebodyLacks(LeafTasks(done + [node] + left), reserved, discover, select))
  {
    hide LeafTasks, ChosenBy, SomebodyLacks, Elements;
    LeafTasksAppend(done, [node]);
    LeafTasksAppend(done + [node], left);
    ChosenByAppend(LeafTasks(done), LeafTasks([node]), reserved, discover, select);
    LacksAppend(LeafTasks(done), LeafTasks([node]), reserved, discover, select);
    LacksAppend(LeafTasks(done + [node]), LeafTasks(left), reserved, discover, select);
  }

  lemma NothingChosen(reserved: set<ProviderId>)
    ensures Staffed([], []) && Reserveless([]) && NoDuplicates(Planning.Chosen<ProviderId>([]))
    ensures Elements(Planning.Chosen<ProviderId>([])) == {}
  {
  }

  /** `assignProvidersToGraph` for one node; `None` when a leaf finds nobody. */
  method AssignNode(node: Planning.Node, reserved: set<ProviderId>, includeReserves: bool, discover: Discover, select: Select)
    returns (prepared: Option<Prepared>, taken: set<ProviderId>)
    requires SelectOk(select)
    ensures prepared.Some? ==>
              var chosen := Planning.Chosen([prepared.value]);
              && Staffed([prepared.value], [node]) && NoDuplicates(chosen)
              && Elements(chosen) !! reserved && taken == reserved + Elements(chosen)
              && (!includeReserves ==> Reserveless([prepared.value]))
    ensures prepared.None? <==> SomebodyLacks(LeafTasks([node]), reserved, discover, select)
    ensures prepared.Some? ==> Planning.Chosen([prepared.value]) == ChosenBy(LeafTasks([node]), reserved, discover, select)
    decreases node, 0
  {
    hide LeafTasks, ChosenBy, SomebodyLacks, Reserveless, Staffed, Planning.Chosen;
    taken := reserved;
    LeafTasksOne(node);
    if node.children != [] {
      var children, next := AssignAll(node.children, reserved, includeReserves, discover, select);
      taken := next;
      if children.None? {
        return None, taken;
      }
      var p := Planning.Prepared(node.task, node.plan, [], [], children.value);
      OneNode(p, node);
      return Some(p), taken;
    }
    OneTask(node.task, reserved, discover, select);
    LeafNode();
    var offered := Without(discover(node.task), reserved);
    var selected := select(node.task, offered);
    if selected.primaries == [] {
      return None, taken;
    }
    taken := reserved + Elements(selected.primaries);
    var p := Planning.Prepared(node.task, node.plan, selected.primaries, if includeReserves then selected.reserves else [], []);
    OneNode(p, node);
    prepared := Some(p);
  }

  lemma LeafNode()
    ensures Planning.Chosen<ProviderId>([]) == [] && Staffed([], []) && Reserveless([])
  {
  }

  lemma OneNode(p: Prepared, node: Planning.Node)
    ensures Planning.Chosen([p]) == p.chosen + Planning.Chosen(p.children)
    ensures p.task == node.task && p.plan == node.plan && (node.children == [] <==> p.chosen != []) && Staffed(p.children, node.children)
            ==> Staffed([p], [node])
    ensures Reserveless([p]) <==> p.reserves == [] && Reserveless(p.children)
  {
    ChosenOne(p);
    assert [p][1..] == [] && [node][1..] == [];
  }

  /** `collectPreparedProviderIds` */
  function Used(nodes: seq<Prepared>): set<ProviderId>
    decreases nodes
  {
    if nodes == [] then {}
    else Elements(nodes[0].chosen) + Elements(nodes[0].reserves) + Used(nodes[0].children) + Used(nodes[1..])
  }

  lemma {:induction false} ChosenUsed(nodes: seq<Prepared>)
    ensures Elements(Planning.Chosen(nodes)) <= Used(nodes)
    decreases nodes
  {
    if nodes != [] {
      ChosenUsed(nodes[0].children);
      ChosenUsed(nodes[1..]);
    }
  }

  datatype PreparedTree = PreparedTree(graph: seq<Prepared>, pool: seq<ProviderId>)

  /** `prepareHierarchicalGraph`: as many leaves as experts less the reserve, each with providers
      of its own; the pool is no larger than the reserve and has nobody of the graph; and with a
      reserve no leaf keeps one. */
  method PrepareHierarchicalGraph(families: Planning.Families, family: Planning.FamilyId, task: Planning.Task,
                                  discover: Discover, select: Select)
    returns (tree: Option<PreparedTree>, nodes: seq<Planning.Node>)
    requires Planning.FamiliesOk(families) && Planning.BiasesOk(families) && family in families && SelectOk(select)
    ensures var reserve := ReserveExperts(task.numExperts);
            var experts := Max(1, task.numExperts - reserve);
            && Planning.GraphOk(nodes, task.(numExperts := experts), experts)
            && Planning.Built(families, task.(numExperts := experts), family, experts, nodes)
            && (tree.None? <==> SomebodyLacks(LeafTasks(nodes), {}, discover, select))
            && (tree.Some? ==>
                  && Planning.Chosen(tree.value.graph) == ChosenBy(LeafTasks(nodes), {}, discover, select)
                  && (var used := Used(tree.value.graph);
                      exists others :: Kept(discover(task), others, (p: ProviderId) => p !in used)
                                       && tree.value.pool <= others && |tree.value.pool| == Min(|others|, reserve))
                  && Staffed(tree.value.graph, nodes) && NoDuplicates(Planning.Chosen(tree.value.graph))
                  && |tree.value.pool| <= reserve && Elements(tree.value.pool) !! Used(tree.value.graph)
                  && Elements(tree.value.pool) !! Elements(Planning.Chosen(tree.value.graph))
                  && (reserve > 0 ==> Reserveless(tree.value.graph))
                  && (NoDuplicates(discover(task)) ==> NoDuplicates(tree.value.pool)))
  {
    hide SelectOk, Staffed, Planning.Chosen, Reserveless, Planning.GraphOk, Planning.Built, Used, LeafTasks, ChosenBy, SomebodyLacks;
    var reserve := ReserveExperts(task.numExperts);
    var experts := Max(1, task.numExperts - reserve);
    nodes := Planning.BuildFamilyNodes(families, task.(numExperts := experts), family, experts);
    var graph, taken := AssignAll(nodes, {}, reserve == 0, discover, select);
    if graph.None? {
      return None, nodes;
    }
    var others := Without(discover(task), Used(graph.value));
    var pool := others[..Min(|others|, reserve)];
    WithoutKeeps(discover(task), Used(graph.value));
    assert forall p :: p in pool ==> p in others;
    ChosenUsed(graph.value);
    tree := Some(PreparedTree(graph.value, pool));
  }
}
