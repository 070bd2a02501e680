/** Growing the raid tree (apps/orchestrator/src/raid-launch.ts): a planned subtree becomes raids,
    numbered in the order in which they are made. */
module Spawning {
  import opened Options
  import opened RaidState
  import opened RaidTree
  import Planning

  type Prepared = Planning.Prepared<ProviderId>

  /** A raid as it is made, its children aside. */
  predicate Fresh(r: Raid, deadline: int) {
    r == NewRaid(r.parent, deadline, r.task, r.workstream, r.selected, r.reserves).(children := r.children)
  }

  /** The raids `lo` up to `hi` were made below `parent`; of the others only the children of
      `parent` changed, by gaining new ones at the end. */
  ghost predicate Grown(m: Raids, m': Raids, lo: nat, hi: nat, parent: RaidId)
    requires parent in m
  {
    && lo <= hi && WellFormed(m', hi)
    && (forall x :: x in m' <==> x in m || lo <= x < hi)
    && (forall x :: x in m && x != parent ==> m'[x] == m[x])
    && m'[parent] == m[parent].(children := m'[parent].children)
    && m[parent].children <= m'[parent].children
    && (forall k :: |m[parent].children| <= k < |m'[parent].children| ==> lo <= m'[parent].children[k] < hi)
    && (forall i :: lo <= i < hi ==>
          && Fresh(m'[i], m[parent].deadline) && m'[i].parent.Some?
          && (m'[i].parent.value == parent || lo <= m'[i].parent.value < hi))
  }

  lemma GrownNothing(m: Raids, next: nat, parent: RaidId)
    requires WellFormed(m, next) && parent in m
    ensures Grown(m, m, next, next, parent)
  {
    assert forall x :: x in m ==> NodeOk(m, next, x);
  }

  lemma OlderThan(m: Raids, next: nat, x: RaidId)
    requires WellFormed(m, next) && x in m
    ensures x < next
  {
    assert NodeOk(m, next, x);
  }

  function AddChild(m: Raids, next: nat, parent: RaidId, child: Raid): Raids
    requires parent in m
  {
    m[parent := m[parent].(children := m[parent].children + [next])][next := child]
  }

  lemma AddChildWellFormed(m: Raids, next: nat, parent: RaidId, child: Raid)
    requires WellFormed(m, next) && parent in m
    requires child.parent == Some(parent) && child.children == [] && child.deadline == m[parent].deadline
    ensures WellFormed(AddChild(m, next, parent, child), next + 1)
  {
    var m' := AddChild(m, next, parent, child);
    OlderThan(m, next, parent);
    assert m'[parent].children[|m[parent].children|] == next;
    forall i | i in m'
      ensures NodeOk(m', next + 1, i)
    {
      if i != next {
        OldNodeOk(m, next, parent, child, i);
      }
    }
  }

  lemma OldNodeOk(m: Raids, next: nat, parent: RaidId, child: Raid, i: RaidId)
    requires WellFormed(m, next) && parent in m && i in m
    requires child.parent == Some(parent) && child.children == [] && child.deadline == m[parent].deadline
    ensures NodeOk(AddChild(m, next, parent, child), next + 1, i)
  {
    var m' := AddChild(m, next, parent, child);
    assert NodeOk(m, next, i);
    forall k | 0 <= k < |m'[i].children|
      ensures m'[i].children[k] in m' && m'[m'[i].children[k]].parent == Some(i)
      ensures k < |m[i].children| ==> m'[i].children[k] < next
    {
      if k < |m[i].children| {
        assert m'[i].children[k] == m[i].children[k];
        OlderThan(m, next, m[i].children[k]);
      }
    }
    if m[i].parent.Some? {
      var p := m[i].parent.value;
      assert NodeOk(m, next, p);
      var k: nat :| k < |m[p].children| && m[p].children[k] == i;
      assert m'[p].children[k] == i;
    }
  }

  lemma GrownOne(m: Raids, next: nat, parent: RaidId, child: Raid)
    requires WellFormed(m, next) && parent in m
    requires Fresh(child, m[parent].deadline) && child.parent == Some(parent) && child.children == []
    ensures Grown(m, AddChild(m, next, parent, child), next, next + 1, parent)
  {
    AddChildWellFormed(m, next, parent, child);
    OlderThan(m, next, parent);
    forall x | x in m
      ensures x < next
    {
      OlderThan(m, next, x);
    }
  }

  /** Growing on, below the same parent or below a raid just made. */
  lemma GrownOn(m: Raids, m1: Raids, m2: Raids, lo: nat, mid: nat, hi: nat, parent: RaidId, at: RaidId)
    requires WellFormed(m, lo) && parent in m && Grown(m, m1, lo, mid, parent) && parent < lo
    requires at == parent || lo <= at < mid
    requires Grown(m1, m2, mid, hi, at)
    ensures Grown(m, m2, lo, hi, parent)
  {
    hide NodeOk, WellFormed;
    if at != parent && at in m {
      OlderThan(m, lo, at);
      assert false;
    }
    forall i | lo <= i < hi
      ensures Fresh(m2[i], m[parent].deadline) && m2[i].parent.Some?
      ensures m2[i].parent.value == parent || lo <= m2[i].parent.value < hi
    {
      assert m1[at].deadline == m[parent].deadline;
      if i < mid {
        assert Fresh(m1[i], m[parent].deadline);
      }
    }
    forall k | |m[parent].children| <= k < |m2[parent].children|
      ensures lo <= m2[parent].children[k] < hi
    {
      if k < |m1[parent].children| {
        assert m2[parent].children[k] == m1[parent].children[k];
      }
    }
  }

  /** What was made lies below `parent`. */
  lemma {:induction false} GrownBelow(m: Raids, m': Raids, lo: nat, hi: nat, parent: RaidId, x: RaidId)
    requires parent in m && parent < lo && Grown(m, m', lo, hi, parent) && lo <= x < hi
    ensures Below(m', parent, x)
    decreases x
  {
    assert NodeOk(m', hi, x);
    if m'[x].parent.value != parent {
      GrownBelow(m, m', lo, hi, parent, m'[x].parent.value);
    }
  }

  /** The selected providers of the raids `lo` up to `hi`. */
  function SelectedOf(m: Raids, lo: nat, hi: nat): seq<ProviderId>
    requires lo <= hi
  {
    if lo == hi then [] else SelectedOf(m, lo, hi - 1) + (if hi - 1 in m then m[hi - 1].selected else [])
  }

  lemma {:induction false} SelectedOfKept(m: Raids, m': Raids, lo: nat, hi: nat)
    requires lo <= hi
    requires forall i :: lo <= i < hi ==> i in m && i in m' && m'[i].selected == m[i].selected
    ensures SelectedOf(m', lo, hi) == SelectedOf(m, lo, hi)
    decreases hi
  {
    if lo < hi {
      SelectedOfKept(m, m', lo, hi - 1);
    }
  }

  lemma {:induction false} SelectedOfSplit(m: Raids, lo: nat, mid: nat, hi: nat)
    requires lo <= mid <= hi
    ensures SelectedOf(m, lo, hi) == SelectedOf(m, lo, mid) + SelectedOf(m, mid, hi)
    decreases hi
  {
    if mid < hi {
      SelectedOfSplit(m, lo, mid, hi - 1);
    }
  }

  lemma {:induction false} ChosenAppend(a: seq<Prepared>, b: seq<Prepared>)
    ensures Planning.Chosen(a + b) == Planning.Chosen(a) + Planning.Chosen(b)
    decreases |a|
  {
    if a == [] {
      assert a + b == b;
    } else {
      assert (a + b)[1..] == a[1..] + b;
      ChosenAppend(a[1..], b);
    }
  }

  lemma ChosenOne(p: Prepared)
    ensures Planning.Chosen([p]) == p.chosen + Planning.Chosen(p.children)
  {
    assert [p][1..] == [];
  }

  /** The providers of a grown part come from the part made first and the part made below it. */
  lemma SelectedGrown(m1: Raids, m2: Raids, lo: nat, mid: nat, hi: nat, at: RaidId)
    requires at in m1 && lo <= mid && Grown(m1, m2, mid, hi, at) && forall i :: lo <= i < mid ==> i in m1
    ensures SelectedOf(m2, lo, hi) == SelectedOf(m1, lo, mid) + SelectedOf(m2, mid, hi)
  {
    SelectedOfSplit(m2, lo, mid, hi);
    SelectedOfKept(m1, m2, lo, mid);
  }

  /** No leaf of the plan keeps reserves. */
  predicate Reserveless(nodes: seq<Prepared>)
    decreases nodes
  {
    nodes == [] || (nodes[0].reserves == [] && Reserveless(nodes[0].children) && Reserveless(nodes[1..]))
  }

  lemma {:induction false} AssignsReserveless(prepared: seq<Prepared>, nodes: seq<Planning.Node>)
    requires Planning.Assigns(prepared, nodes)
    ensures Reserveless(prepared)
    decreases prepared
  {
    if prepared != [] {
      AssignsReserveless(prepared[0].children, nodes[0].children);
      AssignsReserveless(prepared[1..], nodes[1..]);
    }
  }

  predicate NoReserves(m: Raids, lo: nat, hi: nat) {
    forall i :: lo <= i < hi && i in m ==> m[i].reserves == []
  }

  lemma {:induction false} ReservelessAt(nodes: seq<Prepared>, k: nat)
    requires Reserveless(nodes) && k < |nodes|
    ensures nodes[k].reserves == [] && Reserveless(nodes[k].children)
    decreases k
  {
    if k > 0 {
      ReservelessAt(nodes[1..], k - 1);
    }
  }

  /** Raid `i`, made among `lo` up to `hi`, and the raids below it are the planned ones. */
  predicate Mirrors(m: Raids, lo: nat, hi: nat, i: RaidId, node: Prepared, deadline: int)
    decreases node
  {
    && lo <= i < hi && i in m && m[i].parent.Some?
    && m[i] == NewRaid(m[i].parent, deadline, node.task, Some(node.plan.workstreamId), node.chosen, node.reserves)
               .(children := m[i].children)
    && |m[i].children| == |node.children|
    && forall k :: 0 <= k < |node.children| ==> Mirrors(m, lo, hi, m[i].children[k], node.children[k], deadline)
  }

  /** The raid of a prepared node, field by field. */
  lemma MirrorsIs(m: Raids, lo: nat, hi: nat, i: RaidId, node: Prepared, deadline: int)
    requires Mirrors(m, lo, hi, i, node, deadline)
    ensures i in m && JustMade(m[i], m[i].parent, deadline, node.task, Some(node.plan.workstreamId), node.chosen, node.reserves)
    ensures m[i].status == Queued && m[i].parent.Some? && |m[i].children| == |node.children|
  {
    NewRaidMade(m[i].parent, deadline, node.task, Some(node.plan.workstreamId), node.chosen, node.reserves);
  }

  lemma {:induction false} MirrorsKept(m: Raids, m': Raids, lo: nat, hi: nat, lo': nat, hi': nat,
                                       i: RaidId, node: Prepared, deadline: int)
    requires Mirrors(m, lo, hi, i, node, deadline) && lo' <= lo && hi <= hi'
    requires forall x :: lo <= x < hi && x in m ==> x in m' && m'[x] == m[x]
    ensures Mirrors(m', lo', hi', i, node, deadline)
    decreases node
  {
    forall k | 0 <= k < |node.children|
      ensures Mirrors(m', lo', hi', m[i].children[k], node.children[k], deadline)
    {
      MirrorsKept(m, m', lo, hi, lo', hi', m[i].children[k], node.children[k], deadline);
    }
  }

  /** The children from `first` on are the planned ones. */
  predicate MirrorsAll(m: Raids, lo: nat, hi: nat, children: seq<RaidId>, first: nat, nodes: seq<Prepared>, deadline: int) {
    && |children| == first + |nodes|
    && forall k :: 0 <= k < |nodes| ==> Mirrors(m, lo, hi, children[first + k], nodes[k], deadline)
  }

  lemma MirrorsAllKept(m: Raids, m': Raids, lo: nat, hi: nat, hi': nat, children: seq<RaidId>, first: nat,
                       nodes: seq<Prepared>, deadline: int)
    requires MirrorsAll(m, lo, hi, children, first, nodes, deadline) && hi <= hi'
    requires forall x :: lo <= x < hi && x in m ==> x in m' && m'[x] == m[x]
    ensures MirrorsAll(m', lo, hi', children, first, nodes, deadline)
  {
    forall k | 0 <= k < |nodes|
      ensures Mirrors(m', lo, hi', children[first + k], nodes[k], deadline)
    {
      MirrorsKept(m, m', lo, hi, lo, hi', children[first + k], nodes[k], deadline);
    }
  }

  lemma MirrorsAllOneMore(m: Raids, lo: nat, hi: nat, children: seq<RaidId>, c: RaidId, first: nat,
                          nodes: seq<Prepared>, k: nat, deadline: int)
    requires k < |nodes| && MirrorsAll(m, lo, hi, children, first, nodes[..k], deadline)
    requires Mirrors(m, lo, hi, c, nodes[k], deadline)
    ensures MirrorsAll(m, lo, hi, children + [c], first, nodes[..k + 1], deadline)
  {
    hide Mirrors;
    assert forall j :: 0 <= j < k ==> (children + [c])[first + j] == children[first + j] && nodes[..k + 1][j] == nodes[..k][j];
  }

  /** `instantiatePreparedChildren`: one raid a node, each leaf raid with the providers chosen
      for it, and every raid already there left alone but for the new children of `parent`. */
  method Instantiate(m: Raids, next: nat, parent: RaidId, nodes: seq<Prepared>)
    returns (m': Raids, next': nat)
    requires WellFormed(m, next) && parent in m
    ensures Grown(m, m', next, next', parent)
    ensures MirrorsAll(m', next, next', m'[parent].children, |m[parent].children|, nodes, m[parent].deadline)
    ensures SelectedOf(m', next, next') == Planning.Chosen(nodes)
    ensures Reserveless(nodes) ==> NoReserves(m', next, next')
    decreases nodes
  {
    hide NodeOk, WellFormed, Grown, Planning.Chosen, SelectedOf, Reserveless, Mirrors;
    m', next' := m, next;
    GrownNothing(m, next, parent);
    OlderThan(m, next, parent);
    NothingSelected(m, next);
    ghost var first, deadline := |m[parent].children|, m[parent].deadline;
    for k := 0 to |nodes|
      invariant parent in m' && Grown(m, m', next, next', parent)
      invariant next <= next' && SelectedOf(m', next, next') == Planning.Chosen(nodes[..k])
      invariant MirrorsAll(m', next, next', m'[parent].children, first, nodes[..k], deadline)
      invariant Reserveless(nodes) ==> NoReserves(m', next, next')
    {
      GrownFacts(m, m', next, next', parent);
      var m2, next2 := InstantiateOne(m', next', parent, nodes[k]);
      GrownOn(m, m', m2, next, next', next2, parent, parent);
      SelectedGrown(m', m2, next, next', next2, parent);
      assert nodes[..k + 1] == nodes[..k] + [nodes[k]];
      ChosenAppend(nodes[..k], [nodes[k]]);
      if Reserveless(nodes) {
        ReservelessAt(nodes, k);
      }
      GrownFacts(m', m2, next', next2, parent);
      MirrorsAllKept(m', m2, next, next', next2, m'[parent].children, first, nodes[..k], deadline);
      MirrorsKept(m2, m2, next', next2, next, next2, next', nodes[k], deadline);
      MirrorsAllOneMore(m2, next, next2, m'[parent].children, next', first, nodes, k, deadline);
      m', next' := m2, next2;
    }
    assert nodes[..|nodes|] == nodes;
  }

  /** The loop body: the raid of one node, then those of its children. */
  method InstantiateOne(m: Raids, next: nat, parent: RaidId, node: Prepared) returns (m': Raids, next': nat)
    requires WellFormed(m, next) && parent in m
    ensures Grown(m, m', next, next', parent)
    ensures SelectedOf(m', next, next') == Planning.Chosen([node])
    ensures m'[parent].children == m[parent].children + [next]
    ensures next < next' && Mirrors(m', next, next', next, node, m[parent].deadline)
    ensures node.reserves == [] && Reserveless(node.children) ==> NoReserves(m', next, next')
    decreases node
  {
    hide NodeOk, WellFormed, Grown, Planning.Chosen, SelectedOf, Reserveless;
    OlderThan(m, next, parent);
    var child := NewRaid(Some(parent), m[parent].deadline, node.task, Some(node.plan.workstreamId),
                         node.chosen, node.reserves);
    var m1 := AddChild(m, next, parent, child);
    GrownOne(m, next, parent, child);
    OneSelected(m1, next);
    GrownFacts(m, m1, next, next + 1, parent);
    m', next' := Instantiate(m1, next + 1, next, node.children);
    GrownFacts(m1, m', next + 1, next', next);
    GrownOn(m, m1, m', next, next + 1, next', parent, next);
    SelectedGrown(m1, m', next, next + 1, next', next);
    ChosenOne(node);
    MirrorsFrom(m', next, next', node, m[parent].deadline);
  }

  lemma MirrorsFrom(m: Raids, i: nat, hi: nat, node: Prepared, deadline: int)
    requires i < hi && i in m && m[i].parent.Some?
    requires m[i] == NewRaid(m[i].parent, deadline, node.task, Some(node.plan.workstreamId), node.chosen, node.reserves)
                     .(children := m[i].children)
    requires MirrorsAll(m, i + 1, hi, m[i].children, 0, node.children, deadline)
    ensures Mirrors(m, i, hi, i, node, deadline)
  {
    MirrorsAllWider(m, i, hi, m[i].children, node.children, deadline);
  }

  lemma MirrorsAllWider(m: Raids, i: nat, hi: nat, children: seq<RaidId>, nodes: seq<Prepared>, deadline: int)
    requires MirrorsAll(m, i + 1, hi, children, 0, nodes, deadline)
    ensures |children| == |nodes|
    ensures forall k :: 0 <= k < |nodes| ==> Mirrors(m, i, hi, children[k], nodes[k], deadline)
  {
    hide Mirrors;
    forall k | 0 <= k < |nodes|
      ensures Mirrors(m, i, hi, children[k], nodes[k], deadline)
    {
      assert children[0 + k] == children[k];
      MirrorsKept(m, m, i + 1, hi, i, hi, children[k], nodes[k], deadline);
    }
  }

  lemma NothingSelected(m: Raids, next: nat)
    ensures SelectedOf(m, next, next) == [] == Planning.Chosen([])
  {
  }

  lemma OneSelected(m: Raids, i: nat)
    requires i in m
    ensures SelectedOf(m, i, i + 1) == m[i].selected
  {
    assert SelectedOf(m, i, i) == [];
  }

  lemma GrownFacts(m: Raids, m': Raids, lo: nat, hi: nat, parent: RaidId)
    requires parent in m && Grown(m, m', lo, hi, parent)
    ensures lo <= hi && WellFormed(m', hi)
    ensures forall x :: x in m' <==> x in m || lo <= x < hi
    ensures forall x :: x in m && x != parent ==> m'[x] == m[x]
    ensures m'[parent] == m[parent].(children := m'[parent].children)
    ensures forall i :: lo <= i < hi ==> Fresh(m'[i], m[parent].deadline)
  {
  }
}
