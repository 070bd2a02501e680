/** Hierarchical planning: how experts are split over the workstreams of a family and how
    a raid graph with one leaf per expert is built from that split. */
module Planning {
  import opened Options

  type FamilyId = string

  datatype Role = Role(id: string)
  datatype Template = Template(id: string, roles: seq<Role>, child: Option<FamilyId>, bias: real)
  type Families = map<FamilyId, seq<Template>>

  /** What the family tables guarantee: at least two workstreams a family, at least one
      role a workstream, and child families that exist. */
  predicate FamiliesOk(families: Families) {
    forall f :: f in families ==>
      && |families[f]| >= 2
      && forall i :: 0 <= i < |families[f]| ==>
           && families[f][i].roles != []
           && (families[f][i].child.Some? ==> families[f][i].child.value in families)
  }

  datatype Task = Task(budgetUsd: real, numExperts: nat)
  datatype Plan = Plan(providerIndex: nat, totalExperts: nat, role: Role, workstreamId: string)
  datatype Node = Node(task: Task, plan: Plan, children: seq<Node>)
  datatype Allocation = Allocation(template: Template, experts: nat)

  // ----- counting and indexing

  function Leaves(nodes: seq<Node>): (n: nat)
    ensures nodes != [] ==> n > 0
    decreases nodes
  {
    if nodes == [] then 0 else NodeLeaves(nodes[0]) + Leaves(nodes[1..])
  }

  function NodeLeaves(node: Node): (n: nat)
    ensures n > 0
    decreases node
  {
    if node.children == [] then 1 else Leaves(node.children)
  }

  lemma {:induction false} LeavesAppend(a: seq<Node>, b: seq<Node>)
    ensures Leaves(a + b) == Leaves(a) + Leaves(b)
    decreases |a|
  {
    if a == [] {
      assert a + b == b;
    } else {
      assert (a + b)[1..] == a[1..] + b;
      LeavesAppend(a[1..], b);
    }
  }

  /** Consecutive nodes own consecutive provider indices, one for each leaf below them. */
  predicate Tiled(nodes: seq<Node>, start: nat, total: nat)
    decreases nodes
  {
    nodes == [] ||
    (&& nodes[0].plan.providerIndex == start && nodes[0].plan.totalExperts == total
     && (nodes[0].children == [] || Tiled(nodes[0].children, 1, NodeLeaves(nodes[0])))
     && Tiled(nodes[1..], start + NodeLeaves(nodes[0]), total))
  }

  lemma {:induction false} TiledAppend(a: seq<Node>, b: seq<Node>, start: nat, total: nat)
    requires Tiled(a, start, total) && Tiled(b, start + Leaves(a), total)
    ensures Tiled(a + b, start, total)
    decreases |a|
  {
    if a == [] {
      assert a + b == b;
    } else {
      assert (a + b)[1..] == a[1..] + b;
      TiledAppend(a[1..], b, start + NodeLeaves(a[0]), total);
    }
  }

  /** Every leaf below `nodes` has this budget and stands for one expert. */
  predicate LeafBudgets(nodes: seq<Node>, budget: real)
    decreases nodes
  {
    nodes == [] ||
    (&& (if nodes[0].children == [] then nodes[0].task == Task(budget, 1)
         else LeafBudgets(nodes[0].children, budget))
     && LeafBudgets(nodes[1..], budget))
  }

  lemma {:induction false} LeafBudgetsAppend(a: seq<Node>, b: seq<Node>, budget: real)
    requires LeafBudgets(a, budget) && LeafBudgets(b, budget)
    ensures LeafBudgets(a + b, budget)
    decreases |a|
  {
    if a == [] {
      assert a + b == b;
    } else {
      assert (a + b)[1..] == a[1..] + b;
      LeafBudgetsAppend(a[1..], b, budget);
    }
  }

  // ----- money

  function MaxReal(a: real, b: real): real {
    if a >= b then a else b
  }

  /** `toFixed(2)`: the nearest cent, the larger one of two, away from zero below zero. */
  function RoundCents(x: real): real {
    if x < 0.0 then -((-x * 100.0 + 0.5).Floor as real / 100.0)
    else (x * 100.0 + 0.5).Floor as real / 100.0
  }

  function PerExpert(task: Task): real {
    RoundCents(task.budgetUsd / (if task.numExperts >= 1 then task.numExperts as real else 1.0))
  }

  function Share(task: Task, numExperts: nat): real {
    PerExpert(task) * numExperts as real
  }

  /** `buildScopedTask`, as far as money and expert count go. */
  function Scoped(task: Task, numExperts: nat): Task {
    Task(MaxReal(Share(task, numExperts), 0.01), numExperts)
  }

  function LeafBudget(task: Task): real {
    MaxReal(PerExpert(task), 0.01)
  }

  lemma RoundOfCents(c: nat)
    ensures RoundCents(c as real / 100.0) == c as real / 100.0
  {
    assert (c as real / 100.0) * 100.0 == c as real;
    assert (c as real + 0.5).Floor == c;
  }

  lemma RoundNearest(x: real) returns (c: int)
    ensures RoundCents(x) == c as real / 100.0
    ensures RoundCents(x) - x <= 0.005 && x - RoundCents(x) <= 0.005
    ensures x < 0.005 ==> RoundCents(x) <= 0.0
  {
    var y := if x < 0.0 then -x else x;
    var f := (y * 100.0 + 0.5).Floor;
    assert f as real <= y * 100.0 + 0.5 < f as real + 1.0;
    c := if x < 0.0 then -f else f;
  }

  lemma ScaleUnscale(x: real, n: nat)
    requires n >= 1
    ensures x * n as real / n as real == x
  {
  }

  lemma DivideSmall(n: nat)
    requires n >= 1
    ensures 0.0 < 0.01 / n as real <= 0.01
  {
    var q := 0.01 / n as real;
    assert q * n as real == 0.01;
    assert q > 0.01 ==> q * n as real > 0.01;
  }

  /** Scoping a task down, any number of times, leaves what a single expert gets. */
  lemma ScopedKeepsLeafBudget(task: Task, n: nat)
    requires n >= 1
    ensures LeafBudget(Scoped(task, n)) == LeafBudget(task)
  {
    hide RoundCents;
    var per, k := PerExpert(task), n as real;
    var c := RoundNearest(task.budgetUsd / (if task.numExperts >= 1 then task.numExperts as real else 1.0));
    var scoped := Scoped(task, n);
    assert PerExpert(scoped) == RoundCents(scoped.budgetUsd / k);
    if c >= 1 {
      assert per >= 0.01;
      ScaleMono(per, n);
      assert scoped.budgetUsd == per * k;
      ScaleUnscale(per, n);
      RoundOfCents(c);
      assert scoped.budgetUsd / k == per == RoundCents(per);
      assert PerExpert(scoped) == per;
    } else {
      assert per <= 0.0;
      ScaleNeg(per, n);
      assert scoped.budgetUsd == 0.01;
      DivideSmall(n);
      RoundSmall(0.01 / k);
      assert PerExpert(scoped) <= 0.01;
    }
  }

  lemma ScaleMono(x: real, n: nat)
    requires x >= 0.01 && n >= 1
    ensures x * n as real >= 0.01
  {
  }

  lemma ScaleNeg(x: real, n: nat)
    requires x <= 0.0
    ensures x * n as real <= 0.0
  {
  }

  lemma RoundSmall(x: real)
    requires 0.0 < x <= 0.01
    ensures RoundCents(x) <= 0.01
  {
    assert (x * 100.0 + 0.5).Floor <= 1;
  }

  lemma LeafOfScoped(task: Task)
    ensures Scoped(task, 1) == Task(LeafBudget(task), 1)
  {
  }

  // ----- the split of experts over workstreams

  function Total(allocations: seq<Allocation>): nat {
    if allocations == [] then 0 else Total(allocations[..|allocations| - 1]) + allocations[|allocations| - 1].experts
  }

  lemma {:induction false} TotalUpdate(a: seq<Allocation>, i: nat, experts: nat)
    requires i < |a|
    ensures Total(a[i := a[i].(experts := experts)]) == Total(a) - a[i].experts + experts
  {
    var n := |a| - 1;
    var b := a[i := a[i].(experts := experts)];
    if i < n {
      assert b[..n] == a[..n][i := a[..n][i].(experts := experts)];
      TotalUpdate(a[..n], i, experts);
    } else {
      assert b[..n] == a[..n];
    }
  }

  lemma {:induction false} TotalOfOnes(a: seq<Allocation>)
    requires forall i :: 0 <= i < |a| ==> a[i].experts == 1
    ensures Total(a) == |a|
  {
    if a != [] {
      TotalOfOnes(a[..|a| - 1]);
    }
  }

  lemma {:induction false} OthersTakeOne(a: seq<Allocation>, i: nat)
    requires i < |a| && forall j :: 0 <= j < |a| ==> a[j].experts >= 1
    ensures a[i].experts + |a| - 1 <= Total(a)
  {
    var n := |a| - 1;
    if i < n {
      OthersTakeOne(a[..n], i);
    } else {
      AtLeastOnes(a[..n]);
    }
  }

  lemma {:induction false} AtLeastOnes(a: seq<Allocation>)
    requires forall j :: 0 <= j < |a| ==> a[j].experts >= 1
    ensures |a| <= Total(a)
  {
    if a != [] {
      AtLeastOnes(a[..|a| - 1]);
    }
  }

  /** `scoreExpansion` */
  function Score(template: Template, experts: nat): real {
    template.bias / (if experts >= 1 then experts as real else 1.0)
  }

  /** No workstream would have been worth more for an expert than the one that got the
      expert, nor as much if it comes before: the highest-averages rule. */
  predicate HighestAverages(a: seq<Allocation>) {
    forall i, j :: 0 <= i < |a| && 0 <= j < |a| && a[i].experts >= 2 ==>
      && Score(a[i].template, a[i].experts - 1) >= Score(a[j].template, a[j].experts)
      && (j < i ==> Score(a[i].template, a[i].experts - 1) > Score(a[j].template, a[j].experts))
  }

  lemma ScoreDrops(t: Template, n: nat)
    requires n >= 1 && t.bias >= 0.0
    ensures Score(t, n + 1) <= Score(t, n)
  {
    var s := Score(t, n + 1);
    assert s * (n + 1) as real == t.bias;
    assert s >= 0.0;
    assert s * (n + 1) as real == s * n as real + s;
    assert s * n as real <= t.bias;
    DivideBound(s, n, t.bias);
  }

  lemma DivideBound(s: real, n: nat, bias: real)
    requires n >= 1 && s * n as real <= bias
    ensures s <= bias / n as real
  {
    var q := bias / n as real;
    assert q * n as real == bias;
    assert s > q ==> s * n as real > q * n as real;
  }

  /** `selectExpansionTarget`: the first workstream with the highest score. */
  method SelectExpansionTarget(a: seq<Allocation>) returns (best: nat)
    requires a != []
    ensures best < |a|
    ensures forall j :: 0 <= j < |a| ==> Score(a[best].template, a[best].experts) >= Score(a[j].template, a[j].experts)
    ensures forall j :: 0 <= j < best ==> Score(a[best].template, a[best].experts) > Score(a[j].template, a[j].experts)
  {
    best := 0;
    for i := 1 to |a|
      invariant best < i
      invariant forall j :: 0 <= j < i ==> Score(a[best].template, a[best].experts) >= Score(a[j].template, a[j].experts)
      invariant forall j :: 0 <= j < best ==> Score(a[best].template, a[best].experts) > Score(a[j].template, a[j].experts)
    {
      if Score(a[i].template, a[i].experts) > Score(a[best].template, a[best].experts) {
        best := i;
      }
    }
  }

  lemma GiveBest(a: seq<Allocation>, next: nat)
    requires next < |a| && HighestAverages(a)
    requires forall j :: 0 <= j < |a| ==> a[j].experts >= 1 && a[j].template.bias >= 0.0
    requires forall j :: 0 <= j < |a| ==> Score(a[next].template, a[next].experts) >= Score(a[j].template, a[j].experts)
    requires forall j :: 0 <= j < next ==> Score(a[next].template, a[next].experts) > Score(a[j].template, a[j].experts)
    ensures HighestAverages(a[next := a[next].(experts := a[next].experts + 1)])
  {
    hide Score;
    ScoreDrops(a[next].template, a[next].experts);
  }

  lemma NobodyExtra(a: seq<Allocation>)
    requires forall j :: 0 <= j < |a| ==> a[j].experts == 1
    ensures HighestAverages(a)
  {
  }

  /** `buildContributionWorkstreamAllocations`: every active workstream gets an expert, the
      rest go one by one to the highest score; nobody is lost or invented. */
  method Allocate(workstreams: seq<Template>, totalExperts: nat) returns (a: seq<Allocation>)
    requires workstreams != [] && forall i :: 0 <= i < |workstreams| ==> workstreams[i].bias >= 0.0
    ensures var wanted := if totalExperts >= 1 then totalExperts else 1;
            && Total(a) == wanted
            && |a| == (if wanted < |workstreams| then wanted else |workstreams|)
    ensures forall i :: 0 <= i < |a| ==> a[i].template == workstreams[i] && a[i].experts >= 1
    ensures HighestAverages(a)
  {
    hide HighestAverages, Score;
    var wanted := if totalExperts >= 1 then totalExperts else 1;
    var active := if wanted < |workstreams| then wanted else |workstreams|;
    a := seq(active, i requires 0 <= i < active => Allocation(workstreams[i], 1));
    TotalOfOnes(a);
    NobodyExtra(a);
    var remaining: nat := if totalExperts > active then totalExperts - active else 0;
    while remaining > 0
      invariant |a| == active && Total(a) + remaining == wanted
      invariant forall i :: 0 <= i < |a| ==> a[i].template == workstreams[i] && a[i].experts >= 1
      invariant HighestAverages(a)
    {
      var next := SelectExpansionTarget(a);
      TotalUpdate(a, next, a[next].experts + 1);
      GiveBest(a, next);
      a := a[next := a[next].(experts := a[next].experts + 1)];
      remaining := remaining - 1;
    }
  }

  /** The experts of one family, split over the first of its workstreams by that rule. */
  predicate IsSplit(workstreams: seq<Template>, experts: nat, a: seq<Allocation>) {
    && |a| == (if experts < |workstreams| then experts else |workstreams|) && Total(a) == experts
    && (forall i :: 0 <= i < |a| ==> a[i].template == workstreams[i] && a[i].experts >= 1)
    && HighestAverages(a)
  }

  lemma {:induction false} TotalMore(a: seq<Allocation>, b: seq<Allocation>)
    requires |a| == |b| && forall i :: 0 <= i < |a| ==> a[i].experts <= b[i].experts
    ensures Total(a) <= Total(b)
    ensures Total(a) == Total(b) ==> forall i :: 0 <= i < |a| ==> a[i].experts == b[i].experts
  {
    if a != [] {
      TotalMore(a[..|a| - 1], b[..|b| - 1]);
      assert forall i :: 0 <= i < |a| - 1 ==> a[..|a| - 1][i] == a[i] && b[..|b| - 1][i] == b[i];
    }
  }

  lemma {:induction false} ScoreFalls(t: Template, n: nat, k: nat)
    requires 1 <= n <= k && t.bias >= 0.0
    ensures Score(t, k) <= Score(t, n)
    decreases k
  {
    hide Score;
    if n < k {
      ScoreFalls(t, n, k - 1);
      ScoreDrops(t, k - 1);
    }
  }

  lemma NotCrossed(workstreams: seq<Template>, experts: nat, a: seq<Allocation>, b: seq<Allocation>, i: nat, j: nat)
    requires forall k :: 0 <= k < |workstreams| ==> workstreams[k].bias >= 0.0
    requires IsSplit(workstreams, experts, a) && IsSplit(workstreams, experts, b) && i < |a| && j < |a|
    ensures a[i].experts <= b[i].experts || b[j].experts <= a[j].experts
  {
    hide Score;
    if a[i].experts > b[i].experts && b[j].experts > a[j].experts {
      ScoreFalls(a[i].template, b[i].experts, a[i].experts - 1);
      ScoreFalls(b[j].template, a[j].experts, b[j].experts - 1);
    }
  }

  /** The rule leaves only one split. */
  lemma SplitOnce(workstreams: seq<Template>, experts: nat, a: seq<Allocation>, b: seq<Allocation>)
    requires forall i :: 0 <= i < |workstreams| ==> workstreams[i].bias >= 0.0
    requires IsSplit(workstreams, experts, a) && IsSplit(workstreams, experts, b)
    ensures a == b
  {
    hide HighestAverages;
    forall i, j | 0 <= i < |a| && 0 <= j < |a|
      ensures a[i].experts <= b[i].experts || b[j].experts <= a[j].experts
    {
      NotCrossed(workstreams, experts, a, b, i, j);
    }
    if forall i :: 0 <= i < |a| ==> a[i].experts <= b[i].experts {
      TotalMore(a, b);
    } else {
      TotalMore(b, a);
    }
    assert forall i :: 0 <= i < |a| ==> a[i] == b[i];
  }

  // ----- building the graph

  /** A workstream gets an inner node if it has a child family and more experts than roles. */
  predicate Nests(al: Allocation) {
    al.template.child.Some? && al.experts > |al.template.roles|
  }

  /** How many nodes the workstreams come to. */
  function Width(a: seq<Allocation>): nat {
    if a == [] then 0
    else Width(a[..|a| - 1]) + if Nests(a[|a| - 1]) then 1 else a[|a| - 1].experts
  }

  /** The leaves of one workstream from `s` on: one for each expert, the roles taken in turn, the
      provider indices counted from `start`. */
  predicate LeafBlock(task: Task, experts: nat, nodes: seq<Node>, s: nat, al: Allocation, start: nat)
    requires al.template.roles != []
  {
    && s + al.experts <= |nodes|
    && forall j :: 0 <= j < al.experts ==>
         nodes[s + j] == Node(Scoped(task, 1),
                              Plan(start + j, experts, al.template.roles[j % |al.template.roles|], al.template.id), [])
  }

  /** What the nodes of a family are: one block for each workstream of the split, in order; a block
      is an inner node over the nodes of the child family, under the lead role, or the leaves of
      the experts. */
  ghost predicate Built(families: Families, task: Task, family: FamilyId, experts: nat, nodes: seq<Node>)
    decreases nodes, 2
  {
    && family in families
    && exists a :: IsSplit(families[family], experts, a) && |nodes| == Width(a) && BuiltFrom(families, task, experts, nodes, a)
  }

  ghost predicate BuiltFrom(families: Families, task: Task, experts: nat, nodes: seq<Node>, a: seq<Allocation>)
    decreases nodes, 1
  {
    forall i :: 0 <= i < |a| ==> Block(families, task, experts, nodes, a, i)
  }

  /** The block of the `i`-th workstream. */
  ghost predicate Block(families: Families, task: Task, experts: nat, nodes: seq<Node>, a: seq<Allocation>, i: nat)
    requires i < |a|
    decreases nodes, 0
  {
    var t, s, start := a[i].template, Width(a[..i]), 1 + Total(a[..i]);
    && t.roles != []
    && if Nests(a[i])
       then && s < |nodes| && nodes[s].task == Scoped(task, a[i].experts) && nodes[s].plan == Plan(start, experts, t.roles[0], t.id)
            && nodes[s].children != [] && Built(families, nodes[s].task, t.child.value, a[i].experts, nodes[s].children)
       else LeafBlock(task, experts, nodes, s, a[i], start)
  }

  /** The nodes of one workstream, by themselves. */
  ghost predicate OwnNodes(families: Families, task: Task, experts: nat, nodes: seq<Node>, al: Allocation, start: nat) {
    && al.template.roles != []
    && if Nests(al)
       then && |nodes| == 1 && nodes[0].task == Scoped(task, al.experts)
            && nodes[0].plan == Plan(start, experts, al.template.roles[0], al.template.id)
            && nodes[0].children != [] && Built(families, nodes[0].task, al.template.child.value, al.experts, nodes[0].children)
       else |nodes| == al.experts && LeafBlock(task, experts, nodes, 0, al, start)
  }

  /** Appending the nodes of the next workstream. */
  lemma NextBlock(families: Families, task: Task, experts: nat, nodes: seq<Node>, more: seq<Node>, a: seq<Allocation>, k: nat)
    requires k < |a| && |nodes| == Width(a[..k])
    requires forall i :: 0 <= i < k ==> Block(families, task, experts, nodes, a, i)
    requires OwnNodes(families, task, experts, more, a[k], 1 + Total(a[..k]))
    ensures |nodes + more| == Width(a[..k + 1])
    ensures forall i :: 0 <= i < k + 1 ==> Block(families, task, experts, nodes + more, a, i)
  {
    hide Built, Scoped;
    assert a[..k + 1][..k] == a[..k];
    forall i | 0 <= i < k
      ensures Block(families, task, experts, nodes + more, a, i)
    {
      BlockGrows(families, task, experts, nodes, more, a, i);
    }
    LastBlock(families, task, experts, nodes, more, a, k);
  }

  lemma BlockGrows(families: Families, task: Task, experts: nat, nodes: seq<Node>, more: seq<Node>, a: seq<Allocation>, i: nat)
    requires i < |a| && Block(families, task, experts, nodes, a, i)
    ensures Block(families, task, experts, nodes + more, a, i)
  {
    hide Built, Scoped, Width, Total;
  }

  lemma LastBlock(families: Families, task: Task, experts: nat, nodes: seq<Node>, more: seq<Node>, a: seq<Allocation>, k: nat)
    requires k < |a| && |nodes| == Width(a[..k])
    requires OwnNodes(families, task, experts, more, a[k], 1 + Total(a[..k]))
    ensures Block(families, task, experts, nodes + more, a, k)
  {
    hide Built, Scoped, Width, Total;
    assert forall j :: 0 <= j < |more| ==> (nodes + more)[|nodes| + j] == more[j];
  }

  predicate BiasesOk(families: Families) {
    forall f :: f in families ==> forall i :: 0 <= i < |families[f]| ==> families[f][i].bias >= 0.0
  }

  /** What is promised of the nodes of one family: one leaf an expert, indices 1 to the
      number of experts without gap or overlap at every level, the same budget everywhere. */
  ghost predicate GraphOk(nodes: seq<Node>, task: Task, experts: nat) {
    && nodes != []
    && Leaves(nodes) == experts
    && Tiled(nodes, 1, experts)
    && LeafBudgets(nodes, LeafBudget(task))
  }

  /** `buildFamilyNodes` */
  method BuildFamilyNodes(families: Families, task: Task, family: FamilyId, totalExperts: nat)
    returns (children: seq<Node>)
    requires FamiliesOk(families) && BiasesOk(families) && family in families && totalExperts >= 1
    ensures GraphOk(children, task, totalExperts) && Built(families, task, family, totalExperts, children)
    decreases totalExperts, 1
  {
    hide Tiled, LeafBudgets, LeafBudget, Leaves, HighestAverages, Score, Block, OwnNodes, Width, Built;
    NoNodes(LeafBudget(task), totalExperts);
    NoWidth();
    var allocations := Allocate(families[family], totalExperts);
    children := [];
    var nextProviderIndex := 1;
    for k := 0 to |allocations|
      invariant nextProviderIndex == 1 + Total(allocations[..k]) && Leaves(children) == Total(allocations[..k])
      invariant Tiled(children, 1, totalExperts) && LeafBudgets(children, LeafBudget(task))
      invariant k > 0 ==> children != []
      invariant |children| == Width(allocations[..k])
      invariant forall i :: 0 <= i < k ==> Block(families, task, totalExperts, children, allocations, i)
    {
      OthersTakeOne(allocations, k);
      var nodes := ExpandWorkstream(families, task, allocations[k].template, allocations[k].experts,
                                    totalExperts, nextProviderIndex);
      NextBlock(families, task, totalExperts, children, nodes, allocations, k);
      LeavesAppend(children, nodes);
      TiledAppend(children, nodes, 1, totalExperts);
      LeafBudgetsAppend(children, nodes, LeafBudget(task));
      assert allocations[..k + 1][..k] == allocations[..k];
      children := children + nodes;
      nextProviderIndex := nextProviderIndex + allocations[k].experts;
    }
    assert allocations[..|allocations|] == allocations;
    AllBuilt(families, task, family, totalExperts, children, allocations);
  }

  lemma AllBuilt(families: Families, task: Task, family: FamilyId, experts: nat, nodes: seq<Node>, a: seq<Allocation>)
    requires family in families && IsSplit(families[family], experts, a) && |nodes| == Width(a)
    requires forall i :: 0 <= i < |a| ==> Block(families, task, experts, nodes, a, i)
    ensures Built(families, task, family, experts, nodes)
  {
    hide IsSplit, Width, Block;
    assert BuiltFrom(families, task, experts, nodes, a);
  }

  lemma NoNodes(budget: real, total: nat)
    ensures Leaves([]) == 0 && Tiled([], 1, total) && LeafBudgets([], budget)
  {
  }

  lemma NoWidth()
    ensures Width([]) == 0
  {
  }

  /** `expandWorkstream`: an inner node for a child family, or one leaf for each expert. */
  method ExpandWorkstream(families: Families, parentTask: Task, template: Template, expertCount: nat,
                          familyTotal: nat, start: nat)
    returns (nodes: seq<Node>)
    requires FamiliesOk(families) && BiasesOk(families) && expertCount >= 1 && template.roles != []
    requires template.child.Some? ==> template.child.value in families
    requires expertCount >= 2 ==> expertCount < familyTotal
    ensures nodes != [] && Leaves(nodes) == expertCount
    ensures Tiled(nodes, start, familyTotal) && LeafBudgets(nodes, LeafBudget(parentTask))
    ensures OwnNodes(families, parentTask, familyTotal, nodes, Allocation(template, expertCount), start)
    decreases familyTotal, 0
  {
    hide Built;
    if template.child.Some? && expertCount > |template.roles| {
      var childTask := Scoped(parentTask, expertCount);
      ScopedKeepsLeafBudget(parentTask, expertCount);
      var inner := BuildFamilyNodes(families, childTask, template.child.value, expertCount);
      var node := Node(childTask, Plan(start, familyTotal, template.roles[0], template.id), inner);
      nodes := [node];
      assert nodes[1..] == [];
      return;
    }
    nodes := [];
    LeafOfScoped(parentTask);
    for index := 0 to expertCount
      invariant Leaves(nodes) == index == |nodes| && Tiled(nodes, start, familyTotal)
      invariant LeafBudgets(nodes, LeafBudget(parentTask))
      invariant forall j :: 0 <= j < index ==>
                  nodes[j] == Node(Scoped(parentTask, 1), Plan(start + j, familyTotal, template.roles[j % |template.roles|], template.id), [])
    {
      var role := template.roles[index % |template.roles|];
      var leaf := Node(Scoped(parentTask, 1), Plan(start + index, familyTotal, role, template.id), []);
      assert [leaf][1..] == [];
      LeavesAppend(nodes, [leaf]);
      TiledAppend(nodes, [leaf], start, familyTotal);
      LeafBudgetsAppend(nodes, [leaf], LeafBudget(parentTask));
      nodes := nodes + [leaf];
    }
  }

  /** There is only one such graph. */
  lemma {:induction false} BuiltOnce(families: Families, task: Task, family: FamilyId, experts: nat, n: seq<Node>, n': seq<Node>)
    requires BiasesOk(families)
    requires Built(families, task, family, experts, n) && Built(families, task, family, experts, n')
    ensures n == n'
    decreases n, 1
  {
    hide IsSplit, Block;
    var a :| IsSplit(families[family], experts, a) && |n| == Width(a) && BuiltFrom(families, task, experts, n, a);
    var b :| IsSplit(families[family], experts, b) && |n'| == Width(b) && BuiltFrom(families, task, experts, n', b);
    SplitOnce(families[family], experts, a, b);
    assert a[..|a|] == a;
    SameBlocks(families, task, experts, n, n', a, |a|);
  }

  lemma {:induction false} SameBlocks(families: Families, task: Task, experts: nat, n: seq<Node>, n': seq<Node>, a: seq<Allocation>, k: nat)
    requires BiasesOk(families) && k <= |a|
    requires forall i :: 0 <= i < k ==> Block(families, task, experts, n, a, i) && Block(families, task, experts, n', a, i)
    ensures Width(a[..k]) <= |n| && Width(a[..k]) <= |n'|
    ensures forall x :: 0 <= x < Width(a[..k]) ==> n[x] == n'[x]
    decreases n, 0, k
  {
    hide Built, Scoped;
    if k > 0 {
      SameBlocks(families, task, experts, n, n', a, k - 1);
      assert Block(families, task, experts, n, a, k - 1) && Block(families, task, experts, n', a, k - 1);
      assert a[..k][..k - 1] == a[..k - 1];
      var s := Width(a[..k - 1]);
      if Nests(a[k - 1]) {
        BuiltOnce(families, n[s].task, a[k - 1].template.child.value, a[k - 1].experts, n[s].children, n'[s].children);
      } else {
        SameLeaves(task, experts, n, n', s, a[k - 1], 1 + Total(a[..k - 1]));
      }
    }
  }

  lemma SameLeaves(task: Task, experts: nat, n: seq<Node>, n': seq<Node>, s: nat, al: Allocation, start: nat)
    requires al.template.roles != []
    requires LeafBlock(task, experts, n, s, al, start) && LeafBlock(task, experts, n', s, al, start)
    ensures forall x :: s <= x < s + al.experts ==> n[x] == n'[x]
  {
    hide Scoped;
    forall x | s <= x < s + al.experts
      ensures n[x] == n'[x]
    {
      var j := x - s;
      var leaf := Node(Scoped(task, 1), Plan(start + j, experts, al.template.roles[j % |al.template.roles|], al.template.id), []);
      assert n[s + j] == leaf && n'[s + j] == leaf;
    }
  }

  function LeafTotal(nodes: seq<Node>): real
    decreases nodes
  {
    if nodes == [] then 0.0
    else (if nodes[0].children == [] then nodes[0].task.budgetUsd else LeafTotal(nodes[0].children)) + LeafTotal(nodes[1..])
  }

  function Times(n: nat, x: real): real {
    n as real * x
  }

  lemma Distribute(a: nat, b: nat, x: real)
    ensures Times(a + b, x) == Times(a, x) + Times(b, x)
    ensures Times(0, x) == 0.0 && Times(1, x) == x
  {
  }

  lemma {:induction false} LeafTotalIsCountTimesBudget(nodes: seq<Node>, budget: real)
    requires LeafBudgets(nodes, budget)
    ensures LeafTotal(nodes) == Times(Leaves(nodes), budget)
    decreases nodes
  {
    hide Times;
    Distribute(0, 0, budget);
    if nodes != [] {
      LeafTotalIsCountTimesBudget(nodes[1..], budget);
      if nodes[0].children != [] {
        LeafTotalIsCountTimesBudget(nodes[0].children, budget);
      }
      Distribute(NodeLeaves(nodes[0]), Leaves(nodes[1..]), budget);
    }
  }

  /** The leaves together spend the budget up to half a cent an expert. */
  lemma BudgetIsSpent(nodes: seq<Node>, task: Task, experts: nat)
    requires GraphOk(nodes, task, experts) && task.numExperts == experts
    requires task.budgetUsd >= 0.005 * experts as real
    ensures -(0.005 * experts as real) <= LeafTotal(nodes) - task.budgetUsd <= 0.005 * experts as real
  {
    hide RoundCents, LeafTotal;
    LeafTotalIsCountTimesBudget(nodes, LeafBudget(task));
    ShareIsSpent(task.budgetUsd, experts as real);
  }

  lemma ShareIsSpent(budget: real, n: real)
    requires n >= 1.0 && budget >= 0.005 * n
    ensures -(0.005 * n) <= n * MaxReal(RoundCents(budget / n), 0.01) - budget <= 0.005 * n
  {
    hide RoundCents;
    var share := budget / n;
    AtLeast(budget, n);
    var c := RoundNearest(share);
    RoundUpToCent(share);
    ScaledDifference(RoundCents(share), share, n, budget);
    assert MaxReal(RoundCents(share), 0.01) == RoundCents(share);
  }

  lemma AtLeast(b: real, n: real)
    requires n >= 1.0 && b >= 0.005 * n
    ensures b / n >= 0.005 && (b / n) * n == b
  {
    var share := b / n;
    assert share < 0.005 ==> share * n < 0.005 * n;
  }

  lemma ScaledDifference(x: real, y: real, n: real, scaled: real)
    requires -0.005 <= x - y <= 0.005 && n >= 1.0 && scaled == y * n
    ensures -(0.005 * n) <= n * x - scaled <= 0.005 * n
  {
    var d := x - y;
    assert n * x - scaled == d * n;
    NonNegative(0.005 - d, n);
    NonNegative(d + 0.005, n);
    assert (0.005 - d) * n == 0.005 * n - d * n;
    assert (d + 0.005) * n == d * n + 0.005 * n;
  }

  lemma NonNegative(a: real, b: real)
    requires a >= 0.0 && b >= 0.0
    ensures a * b >= 0.0
  {
  }

  lemma RoundUpToCent(x: real)
    requires x >= 0.005
    ensures RoundCents(x) >= 0.01
  {
    assert (x * 100.0 + 0.5).Floor >= 1;
  }

  // ----- assigning a list of providers to the leaves, in order

  datatype Prepared<P> = Prepared(task: Task, plan: Plan, chosen: seq<P>, reserves: seq<P>, children: seq<Prepared<P>>)

  /** The chosen providers, in order. */
  function Chosen<P>(nodes: seq<Prepared<P>>): seq<P>
    decreases nodes
  {
    if nodes == [] then [] else (nodes[0].chosen + Chosen(nodes[0].children)) + Chosen(nodes[1..])
  }

  /** The prepared nodes are the planned ones, with one provider on each leaf. */
  predicate Assigns<P>(prepared: seq<Prepared<P>>, nodes: seq<Node>)
    decreases nodes
  {
    && |prepared| == |nodes|
    && (nodes == [] ||
        (&& prepared[0].task == nodes[0].task && prepared[0].plan == nodes[0].plan
         && |prepared[0].chosen| == (if nodes[0].children == [] then 1 else 0) && prepared[0].reserves == []
         && Assigns(prepared[0].children, nodes[0].children)
         && Assigns(prepared[1..], nodes[1..])))
  }

  /** `assignAdaptiveProvidersToGraph` walks the leaves in order and takes one provider for
      each; `None` is the underflow error of the original. */
  function AssignLeaves<P>(nodes: seq<Node>, providers: seq<P>): Option<(seq<Prepared<P>>, seq<P>)>
    decreases nodes
  {
    if nodes == [] then Some(([], providers))
    else
      match AssignNode(nodes[0], providers)
      case None => None
      case Some((first, left)) =>
        match AssignLeaves(nodes[1..], left)
        case None => None
        case Some((more, rest)) => Some(([first] + more, rest))
  }

  function AssignNode<P>(node: Node, providers: seq<P>): Option<(Prepared<P>, seq<P>)>
    decreases node
  {
    if node.children != [] then
      match AssignLeaves(node.children, providers)
      case None => None
      case Some((inner, left)) => Some((Prepared(node.task, node.plan, [], [], inner), left))
    else if providers == [] then None
    else Some((Prepared(node.task, node.plan, [providers[0]], [], []), providers[1..]))
  }

  /** The walk underflows exactly when there are fewer providers than leaves; otherwise it
      hands out the first ones, each once and in order. */
  lemma {:induction false} AssignLeavesExact<P>(nodes: seq<Node>, providers: seq<P>)
    ensures var n := Leaves(nodes);
            match AssignLeaves(nodes, providers)
            case None => n > |providers|
            case Some((prepared, rest)) =>
              && n <= |providers| && Assigns(prepared, nodes)
              && Chosen(prepared) == providers[..n] && rest == providers[n..]
    decreases nodes
  {
    hide AssignNode, NodeLeaves;
    if nodes != [] {
      AssignNodeExact(nodes[0], providers);
      var k := NodeLeaves(nodes[0]);
      if k <= |providers| {
        AssignLeavesExact(nodes[1..], providers[k..]);
        var m := Leaves(nodes[1..]);
        if k + m <= |providers| {
          assert providers[..k] + providers[k..][..m] == providers[..k + m];
          assert providers[k..][m..] == providers[k + m..];
          var first := AssignNode(nodes[0], providers).value.0;
          var more := AssignLeaves(nodes[1..], providers[k..]).value.0;
          assert ([first] + more)[1..] == more;
        }
      }
    }
  }

  lemma {:induction false} AssignNodeExact<P>(node: Node, providers: seq<P>)
    ensures var n := NodeLeaves(node);
            match AssignNode(node, providers)
            case None => n > |providers|
            case Some((p, rest)) =>
              && n <= |providers| && p.task == node.task && p.plan == node.plan
              && |p.chosen| == (if node.children == [] then 1 else 0) && p.reserves == [] && Assigns(p.children, node.children)
              && p.chosen + Chosen(p.children) == providers[..n] && rest == providers[n..]
    decreases node
  {
    if node.children != [] {
      AssignLeavesExact(node.children, providers);
    } else if providers != [] {
      assert [providers[0]] == providers[..1];
    }
  }
}
