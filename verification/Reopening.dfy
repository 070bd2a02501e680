/** A raid that is reopened while it is still marked as being finalized, when the deadline passes
    before the mark is given up (apps/orchestrator/src/orchestrator-finalization.ts, raid-adaptive.ts). */
module Reopening {
  import opened Options
  import opened RaidState
  import opened RaidTree
  import opened Spawning
  import opened Adaptive
  import opened Replanning
  import opened Expiry
  import opened PlanBooks
  import opened Runs
  import opened Steps
  import opened Lifecycle
  import Cancellation
  import Planning

  const ENV: Environment := Environment({"q"}, map[], map[], (r: RaidId, w: string) => false)

  const TASK: Planning.Task := Planning.Task(10.0, 1)

  /** A workstream with one leaf, whose provider is "a"; "q" is the pool. */
  const LEAF: Prepared := Planning.Prepared(TASK, Planning.Plan(0, 1, Planning.Role("analyst"), "w"), ["a"], [], [])

  const MIDDLE: Prepared := LEAF.(plan := LEAF.plan.(workstreamId := "v"), chosen := [], children := [LEAF])

  /** The root, an inner raid `p` below it and a leaf `c` that has no submission. */
  ghost predicate Chain(m: Raids, top: nat, p: RaidId, c: RaidId) {
    && WellFormed(m, top) && 0 in m && p in m && c in m && 0 < p < c
    && m[0].parent.None? && m[0].children == [p] && m[p].parent == Some(0) && m[p].children == [c] && m[c].parent == Some(p)
    && m[c].children == [] && m[c].ranked == [] && m[c].workstream == Some("w")
    && m[p].deadline == 100
    && m[0].planning == Some(RaidState.Adaptive(["q"], 1, 0, 1, [], []))
    && Live(m, 0)
  }

  lemma ChainIs(m: Raids, top: nat, p: RaidId, c: RaidId)
    requires Chain(m, top, p, c)
    ensures WellFormed(m, top) && 0 in m && p in m && c in m && 0 < p < c < top && Live(m, 0)
    ensures m[0].parent.None? && m[0].children == [p] && m[p].parent == Some(0) && m[p].children == [c] && m[p].deadline == 100
  {
    assert NodeOk(m, top, c);
  }

  lemma LaunchedAre(m: Raids, top: nat) returns (p: RaidId, c: RaidId)
    requires WellFormed(m, top) && 0 in m && m[0] == NewTree(100, TASK, ["q"]).(children := m[0].children)
    requires MirrorsAll(m, 1, top, m[0].children, 0, [MIDDLE], 100)
    ensures Chain(m, top, p, c) && Live(m, p) && Live(m, c)
  {
    p := m[0].children[0];
    assert Mirrors(m, 1, top, m[0].children[0 + 0], [MIDDLE][0], 100);
    assert m[0].children == [p];
    c := m[p].children[0];
    assert Mirrors(m, 1, top, m[p].children[0], MIDDLE.children[0], 100);
    assert m[p].children == [c];
    assert NodeOk(m, top, 0) && NodeOk(m, top, p) && NodeOk(m, top, c);
  }

  /** What is below the raids of a chain. */
  lemma BelowChain(m: Raids, top: nat, p: RaidId, c: RaidId, x: RaidId)
    requires Chain(m, top, p, c)
    ensures Below(m, c, x) <==> x == c
    ensures Below(m, 0, x) <==> x in {0, p, c}
  {
    hide WellFormed, Below, Live;
    BelowItself(m, c);
    BelowItself(m, 0);
    BelowChild(m, top, 0, p);
    BelowChild(m, top, p, c);
    BelowTransitive(m, 0, p, c);
    if Below(m, c, x) && x != c {
      var k := BelowSomeChild(m, top, c, x);
    }
    if Below(m, 0, x) && x != 0 {
      var k := BelowSomeChild(m, top, 0, x);
      if x != p {
        var j := BelowSomeChild(m, top, p, x);
        if x != c {
          var i := BelowSomeChild(m, top, c, x);
        }
      }
    }
  }

  lemma BelowChild(m: Raids, top: nat, i: RaidId, c: RaidId)
    requires WellFormed(m, top) && i in m && c in m && m[c].parent == Some(i) && i < c
    ensures Below(m, i, c)
  {
  }

  /** The leaf is aborted, and nothing else happens. */
  lemma LeafAborted(m: Raids, m1: Raids, m2: Raids, top: nat, p: RaidId, c: RaidId)
    requires Chain(m, top, p, c) && Live(m, p) && Cancellation.AbortedBelow(m, m1, c) && RefreshedBelow(m1, m2, c) && WellFormed(m2, top)
    ensures Chain(m2, top, p, c) && Live(m2, p) && !Live(m2, c)
  {
    BelowChain(m, top, p, c, 0);
    BelowChain(m, top, p, c, p);
    hide WellFormed, Below, SameShape;
    if Cancellation.LivePath(m, c, 0) {
      Cancellation.LivePathBelow(m, c, 0);
    }
    if Cancellation.LivePath(m, c, p) {
      Cancellation.LivePathBelow(m, c, p);
    }
    assert m1[0] == m[0] && m1[p] == m[p] && m1[c].children == [];
    SameBelow(m, m1, c);
    BelowSame(m, m1, c, 0);
    BelowSame(m, m1, c, p);
  }

  lemma SameBelow(m: Raids, m1: Raids, id: RaidId)
    requires Cancellation.AbortedBelow(m, m1, id)
    ensures m1.Keys == m.Keys && forall x :: x in m ==> m1[x].parent == m[x].parent
  {
  }

  lemma {:induction false} BelowSame(m: Raids, m1: Raids, a: RaidId, x: RaidId)
    requires m1.Keys == m.Keys && forall y :: y in m ==> m1[y].parent == m[y].parent
    ensures Below(m1, a, x) <==> Below(m, a, x)
    decreases x
  {
    if x in m && m[x].parent.Some? && m[x].parent.value < x {
      BelowSame(m, m1, a, m[x].parent.value);
    }
  }

  /** Before the root looks for a revision the inner raid is final, and some inner raids were refreshed. */
  ghost predicate Ended(m: Raids, m': Raids, p: RaidId) {
    exists m0 :: Refreshing(m, m0) && p in m0 && Refreshing(m0[p := FinalizeRecord(m0[p])], m')
  }

  lemma ChainEnded(m: Raids, m': Raids, top: nat, p: RaidId, c: RaidId)
    requires Chain(m, top, p, c) && !Live(m, c) && Ended(m, m', p)
    ensures Chain(m', top, p, c) && !Live(m', c) && !Live(m', p)
  {
    hide WellFormed;
    var m0 :| Refreshing(m, m0) && p in m0 && Refreshing(m0[p := FinalizeRecord(m0[p])], m');
    EndedIs(m, m0, m', p);
    SameNodes(m, m', top);
    hide Refreshing, Ended;
  }

  lemma EndedIs(m: Raids, m0: Raids, m': Raids, p: RaidId)
    requires Refreshing(m, m0) && p in m0 && Refreshing(m0[p := FinalizeRecord(m0[p])], m')
    ensures m'.Keys == m.Keys && forall x :: x in m ==>
              && m'[x].parent == m[x].parent && m'[x].children == m[x].children && m'[x].deadline == m[x].deadline
              && m'[x].planning == m[x].planning
              && (Live(m', x) <==> Live(m, x) && x != p)
              && (m[x].children == [] && x != p ==> m'[x] == m[x])
  {
    hide Rank, FirstValidOf;
    var m1 := m0[p := FinalizeRecord(m0[p])];
    assert m1.Keys == m.Keys;
    forall x | x in m
      ensures SameNode(m[x], m0[x]) && SameNode(m1[x], m'[x])
    {
    }
  }

  lemma SameNodes(m: Raids, m': Raids, top: nat)
    requires WellFormed(m, top) && m'.Keys == m.Keys
    requires forall x :: x in m ==> m'[x].parent == m[x].parent && m'[x].children == m[x].children && m'[x].deadline == m[x].deadline
    ensures WellFormed(m', top)
  {
    forall x | x in m'
      ensures NodeOk(m', top, x)
    {
      assert NodeOk(m, top, x);
    }
  }

  /** The plan of the root allows a revision once the leaf is over without a submission. */
  lemma Revisable(m: Raids, top: nat, p: RaidId, c: RaidId)
    requires Chain(m, top, p, c) && !Live(m, c)
    ensures CanReplan(m, 0, ENV, false)
  {
    hide *;
    SomebodyKnown();
    LeafLacking(m, top, p, c);
    BelowChain(m, top, p, c, p);
    PlanReady(m, top, p, c);
    MayRevise(m, 0, p, "w");
  }

  lemma PlanReady(m: Raids, top: nat, p: RaidId, c: RaidId)
    requires Chain(m, top, p, c)
    ensures 0 in m && p in m && MayReplan(m[0], false) && m[0].planning.value.available == ["q"]
  {
    hide WellFormed;
  }

  lemma MayRevise(m: Raids, id: RaidId, p: RaidId, w: string)
    requires id in m && MayReplan(m[id], false) && KnownOf(ENV, m[id].planning.value.available) != []
    requires p in m && Below(m, id, p) && Qualifies(m, m[id].planning.value, p, w)
    ensures CanReplan(m, id, ENV, false)
  {
    hide KnownOf, Below, Qualifies;
  }

  lemma LeafLacking(m: Raids, top: nat, p: RaidId, c: RaidId)
    requires Chain(m, top, p, c) && !Live(m, c)
    ensures Members(m, m[p].children, "w") == [c] && Qualifies(m, m[0].planning.value, p, "w")
  {
    hide WellFormed;
    assert [c][..0] == [];
    assert Members(m, [c], "w") == [c];
    assert Revisions([], p, "w") == 0;
  }

  lemma SomebodyKnown()
    ensures KnownOf(ENV, ["q"]) == ["q"]
  {
    assert ["q"][..0] == [] && Known(ENV, "q");
  }

  /** The revision is below the inner raid: the workstream of its leaf has no valid submission, and
      nothing deeper has candidates. */
  lemma OnlyTarget(m: Raids, top: nat, p: RaidId, c: RaidId, t: Candidate)
    requires Chain(m, top, p, c) && !Live(m, c) && Targeted(m, 0, ENV, t)
    ensures t.parent == p
  {
    var a := m[0].planning.value;
    BelowChain(m, top, p, c, t.parent);
    BelowChain(m, top, p, c, p);
    var d := Distance(m, 0, t.parent);
    GroupCandidateStream(m, ENV, a, t.parent, t.workstream, d);
    Distances(m, top, p, c);
    LeafCandidate(m, top, p, c);
    hide WellFormed, GroupCandidate, Below, Streams;
    var own := GroupCandidate(m, ENV, a, p, "w", 1).value;
    assert IsCandidate(m, ENV, a, 0, 0, own);
    assert !Precedes(own, t);
  }

  lemma Distances(m: Raids, top: nat, p: RaidId, c: RaidId)
    requires Chain(m, top, p, c)
    ensures Below(m, 0, 0) && Below(m, 0, p) && Distance(m, 0, 0) == 0 && Distance(m, 0, p) == 1
  {
    hide WellFormed, Live;
  }

  lemma LeafCandidate(m: Raids, top: nat, p: RaidId, c: RaidId)
    requires Chain(m, top, p, c) && !Live(m, c)
    ensures var own := GroupCandidate(m, ENV, m[0].planning.value, p, "w", 1);
            own.Some? && own.value.parent == p && own.value.workstream == "w" && own.value.priority == 0 && own.value.depth == 1
  {
    LeafLacking(m, top, p, c);
    GroupCandidateIff(m, ENV, m[0].planning.value, p, "w", 1);
    hide WellFormed;
    assert !HasValidOutput(m[c]);
    assert [c][..0] == [];
    assert Valid(m, [c]) == [];
  }

  /** Any revision reopens the inner raid, whose mark is still there. */
  lemma {:induction false} ReopenedWhileMarked(m: Raids, m': Raids, top: nat, top': nat, p: RaidId, c: RaidId, ch: Change)
    requires Chain(m, top, p, c) && !Live(m, c) && Replanned(m, m', top, top', 0, ENV, ch)
    ensures Live(m', 0) && Live(m', p) && Live(m', top) && Caught(m', {p}) == {p}
    ensures m'[0].parent == None && m'[p].parent == Some(0) && m'[top].parent == Some(p) && m'[top].deadline == 100
  {
    TargetFacts(m, m', top, top', ch);
    OnlyTarget(m, top, p, c, ch.target);
    AddedUnder(m, m', top, top', p, ch);
    hide Replanned, Below, WellFormed;
    RevisionStatuses(m, m', top, top', 0, ENV, ch);
    BelowItself(m, p);
  }

  lemma TargetFacts(m: Raids, m': Raids, next: nat, next': nat, ch: Change)
    requires Replanned(m, m', next, next', 0, ENV, ch)
    ensures Targeted(m, 0, ENV, ch.target)
  {
    hide Added, Took, Revises, Targeted, Below;
  }

  lemma AddedUnder(m: Raids, m': Raids, next: nat, next': nat, p: RaidId, ch: Change)
    requires p in m && m[p].deadline == 100 && Replanned(m, m', next, next', 0, ENV, ch) && ch.target.parent == p
    ensures next in m' && m'[next].deadline == 100 && m'[next].parent == Some(p) && !Terminal(m'[next].status)
  {
    hide Mirrors, SelectedOf, Targeted, Took, Revises, NextPlanning, Below, WellFormed;
    AddedFirst(m, m', next, next', ch);
  }

  /** A run of an orchestrator that starts with nothing: a tree is launched, its leaf is aborted, and
      the end of the children's runs finalizes the inner raid, whose parent then revises its plan.
      When the deadline passes while the inner raid is still marked, the root ends terminal and a
      raid below it does not. */
  method MarkedRaidStaysLive() returns (o: Orchestrator, p: RaidId)
    ensures o.Calm() && 0 in o.raids && p in o.raids && o.raids[p].parent == Some(0)
    ensures Terminal(o.raids[0].status) && !Terminal(o.raids[p].status)
  {
    hide *;
    EnvironmentIs();
    o := new Orchestrator(ENV, false);
    var root := o.LaunchTree(100, TASK, [MIDDLE], ["q"]);
    o.CalmIs();
    var top := o.nextId;
    ghost var m := o.raids;
    SteadyFacts(Snapshot(o.raids, o.finalizing, o.passes, o.refused, o.visited), top, {}, o.books, ENV);
    ghost var inner, leaf := LaunchedAre(m, top);
    ChainIs(m, top, inner, leaf);
    p := o.raids[0].children[0];
    var c := o.raids[p].children[0];
    ghost var cancelled := o.AbortRaid(c);
    o.CalmIs();
    ghost var m1 := o.raids;
    SteadyFacts(Snapshot(o.raids, o.finalizing, o.passes, o.refused, o.visited), top, {}, o.books, ENV);
    LeafAborted(m, cancelled, m1, top, p, c);
    ChainIs(m1, top, p, c);
    BeforeDeadline(m1, p);
    NoneLive(m1, top, p, c);
    LiveIs(m1, p);
    o.FinishChildren(p);
    ghost var m2 := o.raids;
    RevisedChain(m1, m2, top, o.nextId, o.finalizing, p, c);
    o.Elapse(100000);
    Due(m2, top);
    ghost var b := o.books;
    o.OnDeadline(top);
    OnwardIs(m2, b, o.raids, o.books);
    StaysLive(m2, o.raids, top, p);
  }

  lemma EnvironmentIs()
    ensures EnvironmentOk(ENV)
  {
  }

  lemma BeforeDeadline(m: Raids, p: RaidId)
    requires p in m && m[p].deadline == 100
    ensures !Reached(m, p, 0)
  {
  }

  lemma NoneLive(m: Raids, top: nat, p: RaidId, c: RaidId)
    requires Chain(m, top, p, c) && !Live(m, c)
    ensures !HasLiveChild(m, p)
  {
    hide WellFormed;
  }

  lemma RevisedChain(m: Raids, m': Raids, top: nat, top': nat, finalizing': set<RaidId>, p: RaidId, c: RaidId)
    requires Chain(m, top, p, c) && !Live(m, c) && ParentRevising(m, {}, m', finalizing', top, top', p, 0, ENV)
    ensures finalizing' == {p} && 0 in m' && p in m' && top in m'
    ensures Live(m', 0) && Live(m', p) && Live(m', top) && Caught(m', {p}) == {p}
    ensures m'[0].parent == None && m'[p].parent == Some(0) && m'[top].parent == Some(p) && m'[top].deadline == 100
  {
    hide Chain, Live, Caught, Replanned, CanReplan, Refreshing;
    var m0 :| Refreshing(m, m0) && p in m0
              && Revising(m0[p := FinalizeRecord(m0[p])], {} + {p}, m', finalizing', top, top', 0, ENV);
    var m1 :| Refreshing(m0[p := FinalizeRecord(m0[p])], m1) && RevisedIf(m1, {} + {p}, m', finalizing', top, top', 0, ENV);
    assert Ended(m, m1, p);
    ChainEnded(m, m1, top, p, c);
    Revisable(m1, top, p, c);
    var ch :| Replanned(m1, m', top, top', 0, ENV, ch);
    ReopenedWhileMarked(m1, m', top, top', p, c, ch);
    LiveIs(m', 0);
    LiveIs(m', p);
    LiveIs(m', top);
  }

  lemma Due(m: Raids, id: RaidId)
    requires id in m && m[id].deadline == 100
    ensures forall now: int :: now >= 100000 ==> Reached(m, id, now)
  {
  }

  lemma StaysLive(m: Raids, m': Raids, id: RaidId, p: RaidId)
    requires Live(m, 0) && Live(m, id) && m[0].parent.None? && p in m && m[p].parent == Some(0) && m[id].parent == Some(p) && 0 < p < id
    requires Caught(m, {p}) == {p} && Later(m, m') && m'.Keys == m.Keys
    requires forall x :: Live(m', x) <==> Live(m, x) && (x !in Linked(m, id) || x in {p})
    ensures 0 in m' && p in m' && m'[p].parent == Some(0) && Terminal(m'[0].status) && !Terminal(m'[p].status)
  {
    hide NewBelow, PlanLater;
    assert p in Caught(m, {p});
    assert TopOf(m, p) == 0 && TopOf(m, id) == 0;
    assert 0 in Linked(m, id);
  }
}
