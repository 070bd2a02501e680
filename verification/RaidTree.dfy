/** The raid tree, and the refresh that aggregates submissions from the children up
    (apps/orchestrator/src/raid-hierarchy.ts). Ids are numbered in order of creation. */
module RaidTree {
  import opened Options
  import opened RaidState

  type Raids = map<RaidId, Raid>

  predicate Inner(r: Raid) {
    r.children != []
  }

  // ----- shape

  predicate NodeOk(m: Raids, top: nat, i: RaidId)
    requires i in m
  {
    && i < top
    && (forall k :: 0 <= k < |m[i].children| ==>
          m[i].children[k] in m && m[m[i].children[k]].parent == Some(i))
    && (forall j, k :: 0 <= j < k < |m[i].children| ==> m[i].children[j] != m[i].children[k])
    && (m[i].parent.Some? ==>
          var p := m[i].parent.value;
          p in m && p < i && i in m[p].children && m[p].deadline == m[i].deadline)
  }

  /** A forest: parents and children agree, parents are older, a tree shares its deadline. */
  predicate WellFormed(m: Raids, top: nat) {
    forall i :: i in m ==> NodeOk(m, top, i)
  }

  /** `x` is `a` or one of its descendants. */
  predicate Below(m: Raids, a: RaidId, x: RaidId)
    decreases x
  {
    x == a || (x in m && m[x].parent.Some? && m[x].parent.value < x && Below(m, a, m[x].parent.value))
  }

  /** Everything a refresh leaves alone: the tree, the assignments and the terminal statuses. */
  ghost predicate SameNode(r: Raid, r': Raid) {
    && r' == r.(status := r'.status, ranked := r'.ranked, firstValid := r'.firstValid, primary := r'.primary)
    && (if Terminal(r.status) then r'.status == r.status else !Terminal(r'.status))
  }

  ghost predicate SameShape(m: Raids, m': Raids) {
    m'.Keys == m.Keys && forall i :: i in m ==> SameNode(m[i], m'[i])
  }

  lemma SameShapeTransitive(a: Raids, b: Raids, c: Raids)
    requires SameShape(a, b) && SameShape(b, c)
    ensures SameShape(a, c)
  {
  }

  /** The same tree, whatever its raids did. */
  predicate SameTree(m: Raids, m': Raids) {
    && m'.Keys == m.Keys
    && forall x :: x in m ==> m'[x].parent == m[x].parent && m'[x].children == m[x].children && m'[x].deadline == m[x].deadline
  }

  lemma WellFormedSameTree(m: Raids, m': Raids, top: nat)
    requires WellFormed(m, top) && SameTree(m, m')
    ensures WellFormed(m', top)
  {
    forall i | i in m'
      ensures NodeOk(m', top, i)
    {
      assert NodeOk(m, top, i);
    }
  }

  lemma {:induction false} BelowDepends(m: Raids, m': Raids, a: RaidId, x: RaidId)
    requires m'.Keys == m.Keys && forall y :: y in m ==> m'[y].parent == m[y].parent
    ensures Below(m', a, x) == Below(m, a, x)
    decreases x
  {
    if x in m && m[x].parent.Some? && m[x].parent.value < x {
      BelowDepends(m, m', a, m[x].parent.value);
    }
  }

  lemma BelowSameShape(m: Raids, m': Raids, a: RaidId, x: RaidId)
    requires SameShape(m, m')
    ensures Below(m', a, x) == Below(m, a, x)
  {
    BelowDepends(m, m', a, x);
  }

  lemma WellFormedSameShape(m: Raids, m': Raids, top: nat)
    requires WellFormed(m, top) && SameShape(m, m')
    ensures WellFormed(m', top)
  {
    WellFormedSameTree(m, m', top);
  }

  lemma {:induction false} BelowIsOlder(m: Raids, a: RaidId, x: RaidId)
    requires Below(m, a, x)
    ensures a <= x && (a < x ==> x in m)
    decreases x
  {
    if x != a {
      BelowIsOlder(m, a, m[x].parent.value);
    }
  }

  lemma {:induction false} BelowOneChild(m: Raids, top: nat, id: RaidId, c: RaidId, d: RaidId, x: RaidId)
    requires WellFormed(m, top) && c in m && d in m && m[c].parent == Some(id) == m[d].parent
    requires Below(m, c, x) && Below(m, d, x)
    ensures c == d
    decreases x
  {
    assert NodeOk(m, top, c) && NodeOk(m, top, d);
    if c != d {
      if x == c {
        BelowIsOlder(m, d, id);
      } else if x == d {
        BelowIsOlder(m, c, id);
      } else {
        BelowOneChild(m, top, id, c, d, m[x].parent.value);
      }
    }
  }

  /** A proper descendant lies below exactly one child. */
  lemma {:induction false} BelowSomeChild(m: Raids, top: nat, id: RaidId, x: RaidId) returns (k: nat)
    requires WellFormed(m, top) && id in m && Below(m, id, x) && x != id
    ensures k < |m[id].children| && Below(m, m[id].children[k], x)
    decreases x
  {
    assert x in m && NodeOk(m, top, x);
    var p := m[x].parent.value;
    if p == id {
      k :| 0 <= k < |m[id].children| && m[id].children[k] == x;
    } else {
      k := BelowSomeChild(m, top, id, p);
    }
  }

  lemma {:induction false} BelowTransitive(m: Raids, a: RaidId, b: RaidId, x: RaidId)
    requires Below(m, a, b) && Below(m, b, x)
    ensures Below(m, a, x)
    decreases x
  {
    if x != b {
      BelowTransitive(m, a, b, m[x].parent.value);
    }
  }

  lemma ChildBelow(m: Raids, top: nat, id: RaidId, k: nat)
    requires WellFormed(m, top) && id in m && k < |m[id].children|
    ensures var c := m[id].children[k]; c in m && id < c < top && m[c].parent == Some(id) && Below(m, id, c)
  {
    var c := m[id].children[k];
    assert NodeOk(m, top, id) && NodeOk(m, top, c);
    assert Below(m, id, id);
  }

  // ----- one level of aggregation

  function ChildEntries(m: Raids, children: seq<RaidId>): seq<Entry> {
    if children == [] then []
    else
      var last := children[|children| - 1];
      ChildEntries(m, children[..|children| - 1]) + (if last in m then m[last].ranked else [])
  }

  predicate SomeChild(m: Raids, children: seq<RaidId>, statuses: set<RaidStatus>) {
    exists k :: 0 <= k < |children| && children[k] in m && m[children[k]].status in statuses
  }

  const WAITING: set<RaidStatus> := {Sanitizing, Queued, Dispatching}
  const ACTIVE: set<RaidStatus> := {Running, FirstValid, Evaluating}

  /** What an inner raid becomes, given its children. */
  function Refreshed(m: Raids, r: Raid): (r': Raid)
    ensures SameNode(r, r')
  {
    var entries := ChildEntries(m, r.children);
    var valid := FirstValidOf(entries);
    var s := r.(ranked := Rank(entries), primary := valid, firstValid := valid);
    if Terminal(r.status) then s
    else if valid.Some? then s.(status := FirstValid)
    else if SomeChild(m, r.children, ACTIVE) then s.(status := Running)
    else if SomeChild(m, r.children, WAITING) then s.(status := Dispatching)
    else s
  }

  /** Child `k` and place `j` hold the first valid submission of the children, in their order. */
  predicate FirstValidAt(m: Raids, children: seq<RaidId>, k: nat, j: nat) {
    && k < |children| && children[k] in m && j < |m[children[k]].ranked| && m[children[k]].ranked[j].valid
    && (forall i :: 0 <= i < j ==> !m[children[k]].ranked[i].valid)
    && forall l :: 0 <= l < k && children[l] in m ==> forall i :: 0 <= i < |m[children[l]].ranked| ==> !m[children[l]].ranked[i].valid
  }

  predicate NoneValid(m: Raids, children: seq<RaidId>) {
    forall l :: 0 <= l < |children| && children[l] in m ==> forall i :: 0 <= i < |m[children[l]].ranked| ==> !m[children[l]].ranked[i].valid
  }

  /** The provider of the first valid submission of the children, one child after the other and each
      in its own order; none exactly if there is no valid one. */
  ghost predicate FirstAmong(m: Raids, children: seq<RaidId>, first: Option<ProviderId>) {
    match first
    case None => NoneValid(m, children)
    case Some(p) => exists k: nat, j: nat :: FirstValidAt(m, children, k, j) && m[children[k]].ranked[j].provider == p
  }

  /** First valid and primary are that one. */
  ghost predicate FirstOfChildren(m: Raids, r: Raid) {
    r.primary == r.firstValid && FirstAmong(m, r.children, r.firstValid)
  }

  lemma {:induction false} ChildEntriesFirst(m: Raids, children: seq<RaidId>)
    ensures FirstAmong(m, children, FirstValidOf(ChildEntries(m, children)))
  {
    hide FirstValidOf, FirstAmong;
    if children == [] {
      FirstValidIs([]);
      FirstAmongNone(m, children);
    } else {
      var n := |children| - 1;
      var before := ChildEntries(m, children[..n]);
      ChildEntriesFirst(m, children[..n]);
      var more := if children[n] in m then m[children[n]].ranked else [];
      FirstValidAppend(before, more);
      if FirstValidOf(before).Some? {
        FirstAmongKept(m, children, FirstValidOf(before));
      } else {
        FirstAmongLast(m, children, more);
      }
    }
  }

  lemma FirstAmongNone(m: Raids, children: seq<RaidId>)
    requires children == []
    ensures FirstAmong(m, children, FirstValidOf([]))
  {
  }

  lemma FirstAmongKept(m: Raids, children: seq<RaidId>, first: Option<ProviderId>)
    requires children != [] && FirstAmong(m, children[..|children| - 1], first) && first.Some?
    ensures FirstAmong(m, children, first)
  {
    var front := children[..|children| - 1];
    var k: nat, j: nat :| FirstValidAt(m, front, k, j) && m[front[k]].ranked[j].provider == first.value;
    assert forall l :: 0 <= l <= k ==> children[l] == front[l];
    assert FirstValidAt(m, children, k, j);
  }

  lemma FirstAmongLast(m: Raids, children: seq<RaidId>, more: seq<Entry>)
    requires children != [] && more == (if children[|children| - 1] in m then m[children[|children| - 1]].ranked else [])
    requires FirstAmong(m, children[..|children| - 1], None)
    ensures FirstAmong(m, children, FirstValidOf(more))
  {
    hide FirstValidOf;
    FirstValidIs(more);
    var n := |children| - 1;
    var front, last := children[..n], children[n];
    assert forall l :: 0 <= l < n ==> children[l] == front[l];
    if FirstValidOf(more).Some? {
      var j: nat :| j < |more| && more[j].valid && more[j].provider == FirstValidOf(more).value && forall i :: 0 <= i < j ==> !more[i].valid;
      assert FirstValidAt(m, children, n, j);
    } else {
      assert NoneValid(m, children);
    }
  }

  lemma {:induction false} FirstValidAppend(a: seq<Entry>, b: seq<Entry>)
    ensures FirstValidOf(a + b) == if FirstValidOf(a).Some? then FirstValidOf(a) else FirstValidOf(b)
  {
    if a == [] {
      assert a + b == b;
    } else {
      assert (a + b)[1..] == a[1..] + b;
      FirstValidAppend(a[1..], b);
    }
  }

  lemma RefreshedIsFirst(m: Raids, r: Raid)
    ensures FirstOfChildren(m, Refreshed(m, r))
  {
    ChildEntriesFirst(m, r.children);
    hide FirstValidOf, Rank, ChildEntries, FirstAmong;
  }

  /** Every inner raid at or below `id` takes its first valid and primary submission from its
      children as they are. */
  lemma RefreshTakesFirst(m: Raids, m': Raids, id: RaidId)
    requires RefreshedBelow(m, m', id)
    ensures forall x :: x in m' && Below(m', id, x) && Inner(m'[x]) ==> FirstOfChildren(m', m'[x])
  {
    hide Refreshed, FirstOfChildren, Below;
    forall x | x in m' && Below(m', id, x) && Inner(m'[x])
      ensures FirstOfChildren(m', m'[x])
    {
      BelowSameShape(m, m', id, x);
      assert SameNode(m[x], m'[x]);
      RefreshedIsFirst(m', m[x]);
    }
  }

  lemma RefreshedTwice(m: Raids, r: Raid)
    ensures Refreshed(m, Refreshed(m, r)) == Refreshed(m, r)
  {
  }

  lemma {:induction false} ChildEntriesDepend(m: Raids, m': Raids, children: seq<RaidId>)
    requires m'.Keys == m.Keys
    requires forall k :: 0 <= k < |children| && children[k] in m ==> m'[children[k]] == m[children[k]]
    ensures ChildEntries(m', children) == ChildEntries(m, children)
  {
    if children != [] {
      var n := |children| - 1;
      assert forall k :: 0 <= k < n ==> children[..n][k] == children[k];
      ChildEntriesDepend(m, m', children[..n]);
    }
  }

  lemma RefreshedDepends(m: Raids, m': Raids, r: Raid)
    requires m'.Keys == m.Keys
    requires forall k :: 0 <= k < |r.children| && r.children[k] in m ==> m'[r.children[k]] == m[r.children[k]]
    ensures Refreshed(m', r) == Refreshed(m, r)
  {
    ChildEntriesDepend(m, m', r.children);
    assert forall s :: SomeChild(m', r.children, s) == SomeChild(m, r.children, s);
  }

  // ----- the refresh of a whole subtree

  /** The effect of refreshing below `id`: every inner raid there is aggregated from its
      children as they are afterwards, nothing else is touched. */
  ghost predicate RefreshedBelow(m: Raids, m': Raids, id: RaidId) {
    && SameShape(m, m')
    && forall x :: x in m ==>
         m'[x] == if Below(m, id, x) && Inner(m[x]) then Refreshed(m', m[x]) else m[x]
  }

  ghost predicate BelowFirst(m: Raids, children: seq<RaidId>, k: nat, x: RaidId) {
    exists j :: 0 <= j < k && j < |children| && Below(m, children[j], x)
  }

  /** The state between two children of the refresh loop. */
  ghost predicate RefreshedFirst(m: Raids, m': Raids, children: seq<RaidId>, k: nat) {
    && SameShape(m, m')
    && forall x :: x in m ==>
         m'[x] == if BelowFirst(m, children, k, x) && Inner(m[x]) then Refreshed(m', m[x]) else m[x]
  }

  lemma BelowOtherChild(m: Raids, top: nat, id: RaidId, j: nat, k: nat, x: RaidId)
    requires WellFormed(m, top) && id in m && j < |m[id].children| && k < |m[id].children|
    requires Below(m, m[id].children[j], x) && Below(m, m[id].children[k], x)
    ensures j == k
  {
    hide Below;
    ChildBelow(m, top, id, j);
    ChildBelow(m, top, id, k);
    BelowOneChild(m, top, id, m[id].children[j], m[id].children[k], x);
    assert NodeOk(m, top, id);
  }

  /** Refreshing below the next child leaves the children of a node below an earlier one alone. */
  lemma EarlierChildKept(m: Raids, m1: Raids, m2: Raids, top: nat, id: RaidId, j: nat, k: nat, x: RaidId)
    requires WellFormed(m, top) && id in m && j < k < |m[id].children|
    requires SameShape(m, m1) && RefreshedBelow(m1, m2, m[id].children[k])
    requires x in m && Below(m, m[id].children[j], x)
    ensures m2[x] == m1[x] && Refreshed(m2, m[x]) == Refreshed(m1, m[x])
  {
    hide Refreshed, NodeOk, Below;
    var c := m[id].children[k];
    BelowSameShape(m, m1, c, x);
    if Below(m, c, x) {
      BelowOtherChild(m, top, id, j, k, x);
    }
    ChildKeys(m, top, x);
    forall i | 0 <= i < |m[x].children|
      ensures m2[m[x].children[i]] == m1[m[x].children[i]]
    {
      var y := m[x].children[i];
      ChildBelow(m, top, x, i);
      BelowTransitive(m, m[id].children[j], x, y);
      BelowSameShape(m, m1, c, y);
      if Below(m, c, y) {
        BelowOtherChild(m, top, id, j, k, y);
      }
    }
    RefreshedDepends(m1, m2, m[x]);
  }

  lemma RefreshNextChild(m: Raids, m1: Raids, m2: Raids, top: nat, id: RaidId, k: nat)
    requires WellFormed(m, top) && id in m && k < |m[id].children|
    requires RefreshedFirst(m, m1, m[id].children, k) && RefreshedBelow(m1, m2, m[id].children[k])
    ensures RefreshedFirst(m, m2, m[id].children, k + 1)
  {
    hide Refreshed, NodeOk, Below;
    var cs := m[id].children;
    SameShapeTransitive(m, m1, m2);
    forall x | x in m
      ensures m2[x] == if BelowFirst(m, cs, k + 1, x) && Inner(m[x]) then Refreshed(m2, m[x]) else m[x]
    {
      BelowSameShape(m, m1, cs[k], x);
      if j: nat :| j < k && Below(m, cs[j], x) {
        EarlierChildKept(m, m1, m2, top, id, j, k, x);
        BelowFirstAt(m, cs, k + 1, j, x);
      } else if Below(m, cs[k], x) {
        BelowFirstAt(m, cs, k + 1, k, x);
      }
    }
  }

  lemma NotBelowOwnChild(m: Raids, top: nat, id: RaidId, x: RaidId)
    requires WellFormed(m, top) && id in m
    requires x == id || !Below(m, id, x)
    ensures !BelowFirst(m, m[id].children, |m[id].children|, x)
  {
    var cs := m[id].children;
    if j: nat :| j < |cs| && Below(m, cs[j], x) {
      ChildBelow(m, top, id, j);
      BelowIsOlder(m, cs[j], x);
      BelowTransitive(m, id, cs[j], x);
      assert false;
    }
  }

  /** Replacing `id` disturbs neither its own refresh nor that of a descendant. */
  lemma RefreshedAround(m: Raids, m1: Raids, top: nat, id: RaidId, x: RaidId, r: Raid)
    requires WellFormed(m, top) && id in m && Below(m, id, x) && x in m && m1.Keys == m.Keys
    ensures Refreshed(m1[id := r], m[x]) == Refreshed(m1, m[x])
  {
    hide Refreshed, NodeOk;
    BelowIsOlder(m, id, x);
    ChildKeys(m, top, x);
    forall i | 0 <= i < |m[x].children|
      ensures m1[id := r][m[x].children[i]] == m1[m[x].children[i]]
    {
      ChildBelow(m, top, x, i);
    }
    RefreshedDepends(m1, m1[id := r], m[x]);
  }

  lemma ChildKeys(m: Raids, top: nat, x: RaidId)
    requires WellFormed(m, top) && x in m
    ensures forall i :: 0 <= i < |m[x].children| ==> m[x].children[i] in m
  {
    assert NodeOk(m, top, x);
  }

  lemma RefreshOwnNode(m: Raids, m1: Raids, top: nat, id: RaidId)
    requires WellFormed(m, top) && id in m && Inner(m[id])
    requires RefreshedFirst(m, m1, m[id].children, |m[id].children|)
    ensures m1[id] == m[id]
    ensures RefreshedBelow(m, m1[id := Refreshed(m1, m1[id])], id)
  {
    hide NodeOk, Below, Refreshed, BelowFirst;
    var cs := m[id].children;
    NotBelowOwnChild(m, top, id, id);
    var r := Refreshed(m1, m[id]);
    var m2 := m1[id := r];
    forall x | x in m
      ensures m2[x] == if Below(m, id, x) && Inner(m[x]) then Refreshed(m2, m[x]) else m[x]
    {
      if Below(m, id, x) {
        RefreshedAround(m, m1, top, id, x, r);
        if x != id {
          var k := BelowSomeChild(m, top, id, x);
          BelowFirstAt(m, cs, |cs|, k, x);
        }
      } else {
        NotBelowOwnChild(m, top, id, x);
        BelowItself(m, id);
      }
    }
    SameShapeRefreshed(m, m1, id);
  }

  lemma BelowItself(m: Raids, id: RaidId)
    ensures Below(m, id, id)
  {
  }

  lemma BelowFirstAt(m: Raids, cs: seq<RaidId>, k: nat, j: nat, x: RaidId)
    requires j < k && j < |cs| && Below(m, cs[j], x)
    ensures BelowFirst(m, cs, k, x)
  {
  }

  lemma SameShapeRefreshed(m: Raids, m1: Raids, id: RaidId)
    requires SameShape(m, m1) && id in m && m1[id] == m[id]
    ensures SameShape(m, m1[id := Refreshed(m1, m[id])])
  {
  }

  /** `refreshParentRaidFromChildren`; leaves are left alone. */
  method RefreshParent(m: Raids, ghost top: nat, id: RaidId) returns (m': Raids)
    requires WellFormed(m, top) && id in m
    ensures RefreshedBelow(m, m', id)
    ensures forall x :: x in m' && Below(m', id, x) && Inner(m'[x]) ==> FirstOfChildren(m', m'[x])
    decreases top - id
  {
    hide Refreshed, NodeOk, Below, FirstOfChildren;
    m' := m;
    if m[id].children == [] {
      LeafAlone(m, top, id);
      RefreshTakesFirst(m, m, id);
      return;
    }
    var children := m[id].children;
    assert RefreshedFirst(m, m, children, 0);
    for k := 0 to |children|
      invariant RefreshedFirst(m, m', children, k)
    {
      ChildBelow(m, top, id, k);
      WellFormedSameShape(m, m', top);
      assert SameNode(m[children[k]], m'[children[k]]);
      var next := m';
      if m'[children[k]].children != [] {
        next := RefreshParent(m', top, children[k]);
      } else {
        LeafAlone(m', top, children[k]);
      }
      RefreshNextChild(m, m', next, top, id, k);
      m' := next;
    }
    RefreshOwnNode(m, m', top, id);
    m' := m'[id := Refreshed(m', m'[id])];
    RefreshTakesFirst(m, m', id);
  }

  lemma LeafAlone(m: Raids, top: nat, id: RaidId)
    requires WellFormed(m, top) && id in m && m[id].children == []
    ensures RefreshedBelow(m, m, id)
  {
    forall x | x in m && Below(m, id, x)
      ensures x == id
    {
      if x != id {
        var k := BelowSomeChild(m, top, id, x);
        assert false;
      }
    }
  }
}
