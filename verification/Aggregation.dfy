/** What a refresh achieves for a whole subtree: an inner raid holds exactly the submissions of
    the leaf raids below it (apps/orchestrator/src/raid-hierarchy.ts). */
module Aggregation {
  import opened Options
  import opened RaidState
  import opened RaidTree

  /** `collectLeafRaids` */
  ghost function LeafRaids(m: Raids, top: nat, i: RaidId): seq<RaidId>
    requires WellFormed(m, top) && i in m
    decreases top - i, 1, 0
  {
    if m[i].children == [] then [i]
    else
      assert NodeOk(m, top, i);
      LeavesOfFirst(m, top, i, |m[i].children|)
  }

  ghost function LeavesOfFirst(m: Raids, top: nat, i: RaidId, n: nat): seq<RaidId>
    requires WellFormed(m, top) && i in m && i < top && n <= |m[i].children|
    decreases top - i, 0, n
  {
    if n == 0 then []
    else
      ChildBelow(m, top, i, n - 1);
      LeavesOfFirst(m, top, i, n - 1) + LeafRaids(m, top, m[i].children[n - 1])
  }

  /** The leaf raids are the childless raids below `i`. */
  lemma {:induction false} LeafRaidsAreTheLeaves(m: Raids, top: nat, i: RaidId, x: RaidId)
    requires WellFormed(m, top) && i in m
    ensures x in LeafRaids(m, top, i) <==> x in m && Below(m, i, x) && m[x].children == []
    decreases top - i, 1, 0
  {
    hide NodeOk, Below;
    BelowItself(m, i);
    if m[i].children == [] {
      if x in m && x != i && Below(m, i, x) {
        var k := BelowSomeChild(m, top, i, x);
        assert false;
      }
    } else {
      TopAbove(m, top, i);
      LeavesOfFirstAreTheLeaves(m, top, i, |m[i].children|, x);
      if x in m && x != i && Below(m, i, x) {
        var k := BelowSomeChild(m, top, i, x);
      }
      if j: nat :| j < |m[i].children| && Below(m, m[i].children[j], x) {
        ChildBelow(m, top, i, j);
        BelowTransitive(m, i, m[i].children[j], x);
      }
    }
  }

  lemma TopAbove(m: Raids, top: nat, i: RaidId)
    requires WellFormed(m, top) && i in m
    ensures i < top
  {
    assert NodeOk(m, top, i);
  }

  lemma {:induction false} LeavesOfFirstAreTheLeaves(m: Raids, top: nat, i: RaidId, n: nat, x: RaidId)
    requires WellFormed(m, top) && i in m && i < top && n <= |m[i].children|
    ensures x in LeavesOfFirst(m, top, i, n) <==> x in m && BelowFirst(m, m[i].children, n, x) && m[x].children == []
    decreases top - i, 0, n
  {
    hide NodeOk, Below;
    if n > 0 {
      ChildBelow(m, top, i, n - 1);
      LeavesOfFirstAreTheLeaves(m, top, i, n - 1, x);
      LeafRaidsAreTheLeaves(m, top, m[i].children[n - 1], x);
    }
  }

  lemma {:induction false} ChildEntriesAppend(m: Raids, a: seq<RaidId>, b: seq<RaidId>)
    ensures ChildEntries(m, a + b) == ChildEntries(m, a) + ChildEntries(m, b)
  {
    if b == [] {
      assert a + b == a;
    } else {
      assert (a + b)[..|a + b| - 1] == a + b[..|b| - 1];
      ChildEntriesAppend(m, a, b[..|b| - 1]);
    }
  }

  /** The submissions below `i`, places aside. */
  ghost function LeafSubmissions(m: Raids, top: nat, i: RaidId): multiset<Entry>
    requires WellFormed(m, top) && i in m
  {
    Unranked(ChildEntries(m, LeafRaids(m, top, i)))
  }

  /** Every inner raid below `id` holds the ranked submissions of its children. */
  ghost predicate Gathered(m: Raids, id: RaidId) {
    forall x :: x in m && Below(m, id, x) && Inner(m[x]) ==> GatheredAt(m, m[x])
  }

  predicate GatheredAt(m: Raids, r: Raid) {
    && r.ranked == Rank(ChildEntries(m, r.children))
    && r.firstValid == FirstValidOf(ChildEntries(m, r.children))
  }

  /** A refresh gathers. */
  lemma RefreshGathers(m: Raids, m': Raids, id: RaidId)
    requires RefreshedBelow(m, m', id)
    ensures Gathered(m', id)
  {
    hide Below, Rank, ChildEntries, FirstValidOf, SomeChild;
    forall x | x in m && Below(m', id, x) && Inner(m'[x])
      ensures GatheredAt(m', m'[x])
    {
      BelowSameShape(m, m', id, x);
    }
  }

  /** Making the top final keeps what was gathered. */
  lemma FinalizeKeepsGathered(m: Raids, top: nat, id: RaidId)
    requires WellFormed(m, top) && id in m && Gathered(m, id)
    ensures Gathered(m[id := FinalizeRecord(m[id])], id)
  {
    hide Below, Rank, ChildEntries, FirstValidOf, NodeOk, WellFormed;
    var m' := m[id := FinalizeRecord(m[id])];
    forall x | x in m && Below(m', id, x) && Inner(m'[x])
      ensures GatheredAt(m', m'[x])
    {
      BelowDepends(m, m', id, x);
      ChildrenAreNot(m, top, id, x);
      ChildEntriesDepend(m, m', m[x].children);
      BelowItself(m, id);
      if x == id {
        RankIdempotent(ChildEntries(m, m[id].children));
      }
    }
  }

  lemma ChildrenAreNot(m: Raids, top: nat, id: RaidId, x: RaidId)
    requires WellFormed(m, top) && x in m && Below(m, id, x)
    ensures forall k :: 0 <= k < |m[x].children| ==> m[x].children[k] in m && m[x].children[k] != id
  {
    BelowIsOlder(m, id, x);
    forall k | 0 <= k < |m[x].children|
      ensures m[x].children[k] in m && m[x].children[k] != id
    {
      ChildBelow(m, top, x, k);
    }
  }

  /** Where it is gathered, every raid holds exactly the submissions of its leaf raids. */
  lemma {:induction false} GatheredConserves(m: Raids, top: nat, id: RaidId, x: RaidId)
    requires WellFormed(m, top) && id in m && Gathered(m, id)
    requires x in m && Below(m, id, x)
    ensures Unranked(m[x].ranked) == LeafSubmissions(m, top, x)
    decreases top - x, 1, 0
  {
    hide NodeOk, Below, Rank, Unranked, WellFormed, ChildEntries, HasValid;
    if m[x].children == [] {
      OneLeafRaid(m, top, x);
    } else {
      TopAbove(m, top, x);
      GatheredConservesFirst(m, top, id, x, |m[x].children|);
      assert m[x].children[..|m[x].children|] == m[x].children;
      RankIsSortedPermutation(ChildEntries(m, m[x].children));
    }
  }

  lemma OneLeafRaid(m: Raids, top: nat, x: RaidId)
    requires WellFormed(m, top) && x in m && m[x].children == []
    ensures ChildEntries(m, LeafRaids(m, top, x)) == m[x].ranked
  {
    assert [x][..0] == [];
    assert ChildEntries(m, [x]) == ChildEntries(m, [x][..0]) + m[x].ranked;
  }

  lemma ChildEntriesLast(m: Raids, cs: seq<RaidId>, n: nat)
    requires 0 < n <= |cs| && cs[n - 1] in m
    ensures ChildEntries(m, cs[..n]) == ChildEntries(m, cs[..n - 1]) + m[cs[n - 1]].ranked
  {
    assert cs[..n][..n - 1] == cs[..n - 1];
  }

  lemma {:induction false} GatheredConservesFirst(m: Raids, top: nat, id: RaidId, x: RaidId, n: nat)
    requires WellFormed(m, top) && id in m && Gathered(m, id)
    requires x in m && Below(m, id, x) && x < top && n <= |m[x].children|
    ensures Unranked(ChildEntries(m, m[x].children[..n])) == Unranked(ChildEntries(m, LeavesOfFirst(m, top, x, n)))
    decreases top - x, 0, n
  {
    hide NodeOk, Below, Rank, WellFormed, Unranked, ChildEntries;
    if n > 0 {
      var cs := m[x].children;
      ChildBelow(m, top, x, n - 1);
      var c := cs[n - 1];
      BelowTransitive(m, id, x, c);
      GatheredConservesFirst(m, top, id, x, n - 1);
      GatheredConserves(m, top, id, c);
      ChildEntriesLast(m, cs, n);
      UnrankedAppend(ChildEntries(m, cs[..n - 1]), m[c].ranked);
      ChildEntriesAppend(m, LeavesOfFirst(m, top, x, n - 1), LeafRaids(m, top, c));
      UnrankedAppend(ChildEntries(m, LeavesOfFirst(m, top, x, n - 1)), ChildEntries(m, LeafRaids(m, top, c)));
    } else {
      assert m[x].children[..0] == [];
    }
  }

  lemma {:induction false} UnrankedMember(entries: seq<Entry>, e: Entry)
    ensures e in Unranked(entries) <==> exists k :: 0 <= k < |entries| && entries[k].(rank := 0) == e
  {
    if entries != [] {
      var n := |entries| - 1;
      UnrankedMember(entries[..n], e);
      if k: nat :| k < |entries| && entries[k].(rank := 0) == e {
        assert k == n || entries[..n][k] == entries[k];
      }
    }
  }

  predicate HasValid(entries: seq<Entry>) {
    exists k :: 0 <= k < |entries| && entries[k].valid
  }

  lemma HasValidUnranked(a: seq<Entry>, b: seq<Entry>)
    requires Unranked(a) == Unranked(b) && HasValid(a)
    ensures HasValid(b)
  {
    var k: nat :| k < |a| && a[k].valid;
    UnrankedMember(a, a[k].(rank := 0));
    UnrankedMember(b, a[k].(rank := 0));
  }

  lemma {:induction false} HasValidChild(m: Raids, ids: seq<RaidId>)
    requires forall k :: 0 <= k < |ids| ==> ids[k] in m
    ensures HasValid(ChildEntries(m, ids)) <==> exists k :: 0 <= k < |ids| && HasValid(m[ids[k]].ranked)
  {
    if ids != [] {
      var n := |ids| - 1;
      HasValidChild(m, ids[..n]);
      var a, b := ChildEntries(m, ids[..n]), m[ids[n]].ranked;
      HasValidAppend(a, b);
      if k: nat :| k < |ids| && HasValid(m[ids[k]].ranked) {
        assert k == n || ids[..n][k] == ids[k];
      }
      if k: nat :| k < n && HasValid(m[ids[..n][k]].ranked) {
        assert ids[k] == ids[..n][k];
      }
    }
  }

  lemma HasValidAppend(a: seq<Entry>, b: seq<Entry>)
    ensures HasValid(a + b) <==> HasValid(a) || HasValid(b)
  {
    if k: nat :| k < |a| && a[k].valid {
      assert (a + b)[k].valid;
    }
    if k: nat :| k < |b| && b[k].valid {
      assert (a + b)[|a| + k].valid;
    }
  }

  /** A valid submission below `x` is one of a leaf raid. */
  lemma LeavesHaveValid(m: Raids, top: nat, x: RaidId)
    requires WellFormed(m, top) && x in m
    ensures HasValid(ChildEntries(m, LeafRaids(m, top, x))) <==>
            exists y :: y in m && Below(m, x, y) && m[y].children == [] && HasValid(m[y].ranked)
  {
    hide NodeOk, Below, ChildEntries, LeafRaids, WellFormed, HasValid;
    var leaves := LeafRaids(m, top, x);
    forall y
      ensures y in leaves <==> y in m && Below(m, x, y) && m[y].children == []
    {
      LeafRaidsAreTheLeaves(m, top, x, y);
    }
    forall k | 0 <= k < |leaves|
      ensures leaves[k] in m
    {
      assert leaves[k] in leaves;
    }
    HasValidChild(m, leaves);
    if y :| y in m && Below(m, x, y) && m[y].children == [] && HasValid(m[y].ranked) {
      var k: nat :| k < |leaves| && leaves[k] == y;
    }
    if k: nat :| k < |leaves| && HasValid(m[leaves[k]].ranked) {
      assert leaves[k] in leaves;
    }
  }

  lemma FirstValidHasValid(entries: seq<Entry>)
    ensures FirstValidOf(entries).Some? <==> HasValid(entries)
  {
  }

  /** Where it is gathered, an inner raid has a first valid submission exactly when some leaf
      raid below it holds a valid one. */
  lemma FirstValidIffSomeLeafValid(m: Raids, top: nat, id: RaidId, x: RaidId)
    requires WellFormed(m, top) && id in m && Gathered(m, id)
    requires x in m && Below(m, id, x) && Inner(m[x])
    ensures m[x].firstValid.Some? <==>
            exists y :: y in m && Below(m, x, y) && m[y].children == [] && HasValid(m[y].ranked)
  {
    hide Below, Unranked, ChildEntries, WellFormed, LeafRaids, HasValid, Rank, FirstValidOf;
    var entries := ChildEntries(m, m[x].children);
    var all := ChildEntries(m, LeafRaids(m, top, x));
    FirstValidHasValid(entries);
    RankIsSortedPermutation(entries);
    GatheredConserves(m, top, id, x);
    if HasValid(entries) {
      HasValidUnranked(entries, all);
    }
    if HasValid(all) {
      HasValidUnranked(all, entries);
    }
    LeavesHaveValid(m, top, x);
  }

  /** The statuses after a refresh: a terminal one stays; otherwise a valid submission decides,
      then a child at work, then one that still waits for its providers. */
  lemma RefreshedStatus(m: Raids, m': Raids, id: RaidId, x: RaidId)
    requires RefreshedBelow(m, m', id) && x in m && Below(m, id, x) && Inner(m[x])
    ensures m'[x].primary == m'[x].firstValid
    ensures Terminal(m[x].status) ==> m'[x].status == m[x].status
    ensures !Terminal(m[x].status) && m'[x].firstValid.Some? ==> m'[x].status == FirstValid
    ensures !Terminal(m[x].status) && m'[x].firstValid.None? ==>
              var working := exists k :: 0 <= k < |m[x].children| && m[x].children[k] in m' &&
                               var s := m'[m[x].children[k]].status; s.Running? || s.FirstValid? || s.Evaluating?;
              var waiting := exists k :: 0 <= k < |m[x].children| && m[x].children[k] in m' &&
                               var s := m'[m[x].children[k]].status; s.Sanitizing? || s.Queued? || s.Dispatching?;
              m'[x].status == if working then Running else if waiting then Dispatching else m[x].status
  {
    hide Below, Rank, ChildEntries, FirstValidOf;
    assert forall s: RaidStatus :: s in ACTIVE <==> s.Running? || s.FirstValid? || s.Evaluating?;
    assert forall s: RaidStatus :: s in WAITING <==> s.Sanitizing? || s.Queued? || s.Dispatching?;
  }

  /** The declarative effect determines the outcome. */
  lemma {:induction false} RefreshAgrees(m: Raids, a: Raids, b: Raids, top: nat, id: RaidId, x: RaidId)
    requires WellFormed(m, top) && id in m && RefreshedBelow(m, a, id) && RefreshedBelow(m, b, id) && x in m
    ensures a[x] == b[x]
    decreases top - x
  {
    hide NodeOk, Below, Refreshed;
    if Below(m, id, x) && Inner(m[x]) {
      ChildKeys(m, top, x);
      forall k | 0 <= k < |m[x].children|
        ensures a[m[x].children[k]] == b[m[x].children[k]]
      {
        ChildBelow(m, top, x, k);
        RefreshAgrees(m, a, b, top, id, m[x].children[k]);
      }
      RefreshedDepends(a, b, m[x]);
    }
  }

  lemma RefreshUnique(m: Raids, a: Raids, b: Raids, top: nat, id: RaidId)
    requires WellFormed(m, top) && id in m && RefreshedBelow(m, a, id) && RefreshedBelow(m, b, id)
    ensures a == b
  {
    hide Refreshed, Below, NodeOk, WellFormed, SameNode;
    forall x | x in m
      ensures a[x] == b[x]
    {
      RefreshAgrees(m, a, b, top, id, x);
    }
  }

  /** A refreshed tree is left as it is by a further refresh. */
  lemma RefreshIdempotent(m: Raids, m': Raids, top: nat, id: RaidId)
    requires WellFormed(m, top) && id in m && RefreshedBelow(m, m', id)
    ensures RefreshedBelow(m', m', id)
  {
    hide NodeOk, Below, Refreshed;
    forall x | x in m
      ensures Below(m', id, x) && Inner(m'[x]) ==> Refreshed(m', m'[x]) == m'[x]
    {
      BelowSameShape(m, m', id, x);
      if Below(m, id, x) && Inner(m[x]) {
        RefreshedTwice(m', m[x]);
      }
    }
  }
}
