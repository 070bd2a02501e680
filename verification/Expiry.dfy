/** What finalization does to the raid tree, on values (apps/orchestrator/src/orchestrator-finalization.ts). */
module Expiry {
  import opened Options
  import opened Sequences
  import opened RaidState
  import opened RaidTree

  predicate Live(m: Raids, x: RaidId) {
    x in m && !Terminal(m[x].status)
  }

  /** The raids that became terminal. */
  function Newly(m: Raids, m': Raids): set<RaidId> {
    set x | x in m && Live(m, x) && !Live(m', x)
  }

  function Unmarked(m: Raids, marks: set<RaidId>): set<RaidId> {
    set x | x in m && Live(m, x) && x !in marks
  }

  /** Every selected provider that has not settled is disqualified. */
  function DisqualifyAll(r: Raid): Raid {
    DisqualifySelected(r, |r.selected|)
  }

  /** Providers left the pool of a plan, nothing else. */
  predicate PlanDrains(p: Option<RaidState.Adaptive>, p': Option<RaidState.Adaptive>) {
    || p' == p
    || (p.Some? && p'.Some? && Suffix(p.value.available, p'.value.available)
        && p'.value == p.value.(available := p'.value.available))
  }

  /** Only what finalization and a drained pool may change. */
  predicate Kept(r: Raid, r': Raid) {
    && r' == r.(status := r'.status, ranked := r'.ranked, firstValid := r'.firstValid, primary := r'.primary,
                assignments := r'.assignments, planning := r'.planning)
    && PlanDrains(r.planning, r'.planning)
  }

  /** One raid over a stretch of finalization; the raid `own` was disqualified before it. */
  ghost predicate Stretch(r: Raid, r': Raid, own: bool) {
    && Kept(r, r')
    && (Terminal(r.status) ==> r'.status == r.status && r'.assignments == r.assignments)
    && (!Terminal(r.status) && Terminal(r'.status) ==> r'.status == Final)
    && (r'.assignments == r.assignments || r'.assignments == DisqualifyAll(r).assignments)
    && (r.children == [] ==>
          r' == if !Terminal(r.status) && Terminal(r'.status) then FinalizeRecord(if own then r else DisqualifyAll(r)) else r)
  }

  /** A stretch of finalization: only raids that are not expiring, and `own`, became terminal. */
  ghost predicate Effect(m: Raids, m': Raids, marks: set<RaidId>, own: set<RaidId>) {
    && m'.Keys == m.Keys
    && (forall x :: x in m ==> Stretch(m[x], m'[x], x in own))
    && (forall x :: x in Newly(m, m') ==> x in own || x !in marks)
  }

  /** Live raids below a terminal one are all among `exposed`; without any, terminal raids have
      only terminal descendants. */
  ghost predicate Guarded(m: Raids, exposed: set<RaidId>) {
    forall x :: Live(m, x) && m[x].parent.Some? && m[x].parent.value in m && Terminal(m[m[x].parent.value].status) ==> x in exposed
  }

  lemma EffectOfNothing(m: Raids, marks: set<RaidId>)
    ensures Effect(m, m, marks, {}) && Newly(m, m) == {}
  {
  }

  /** What refreshing some inner raids amounts to. */
  ghost predicate Refreshing(m: Raids, m': Raids) {
    SameShape(m, m') && forall x :: x in m && m[x].children == [] ==> m'[x] == m[x]
  }

  lemma RefreshingOn(m: Raids, m1: Raids, m2: Raids)
    requires Refreshing(m, m1) && Refreshing(m1, m2)
    ensures Refreshing(m, m2)
  {
    SameShapeTransitive(m, m1, m2);
  }

  lemma RefreshIsRefreshing(m: Raids, m': Raids, id: RaidId)
    requires RefreshedBelow(m, m', id)
    ensures Refreshing(m, m')
  {
    hide Refreshed, Below, SameNode;
  }

  lemma EffectOfRefreshing(m: Raids, m': Raids, marks: set<RaidId>)
    requires Refreshing(m, m')
    ensures Effect(m, m', marks, {}) && Newly(m, m') == {}
    ensures m'.Keys == m.Keys && forall x :: Live(m', x) <==> Live(m, x)
  {
    hide DisqualifyAll, FinalizeRecord;
    forall x | x in m
      ensures Stretch(m[x], m'[x], false) && (Live(m, x) <==> Live(m', x))
    {
      assert SameNode(m[x], m'[x]);
    }
  }

  lemma NewlyAdds(m: Raids, m1: Raids, m2: Raids)
    requires m1.Keys == m.Keys == m2.Keys
    requires forall x :: x in m ==> (!Live(m, x) ==> !Live(m1, x)) && (!Live(m1, x) ==> !Live(m2, x))
    ensures Newly(m, m2) == Newly(m, m1) + Newly(m1, m2) && Newly(m, m1) !! Newly(m1, m2)
  {
  }

  lemma EffectShrinksLive(m: Raids, m': Raids, marks: set<RaidId>, own: set<RaidId>)
    requires Effect(m, m', marks, own)
    ensures forall x :: Live(m', x) ==> Live(m, x)
    ensures forall x :: x in m && !Live(m, x) ==> !Live(m', x)
  {
    hide DisqualifyAll, FinalizeRecord;
    forall x | x in m
      ensures Live(m', x) ==> Live(m, x)
    {
      assert Stretch(m[x], m'[x], x in own);
    }
  }

  lemma PlanDrainsOn(p: Option<RaidState.Adaptive>, p1: Option<RaidState.Adaptive>, p2: Option<RaidState.Adaptive>)
    requires PlanDrains(p, p1) && PlanDrains(p1, p2)
    ensures PlanDrains(p, p2)
  {
    if p1 != p && p2 != p1 {
      SuffixOn(p.value.available, p1.value.available, p2.value.available);
    }
  }

  lemma StretchOn(r: Raid, r1: Raid, r2: Raid, own1: bool, own2: bool)
    requires Stretch(r, r1, own1) && Stretch(r1, r2, own2)
    ensures Stretch(r, r2, if !Terminal(r.status) && !Terminal(r1.status) && Terminal(r2.status) then own2 else own1)
  {
    hide DisqualifyAll, FinalizeRecord, PlanDrains;
    PlanDrainsOn(r.planning, r1.planning, r2.planning);
    if r1.assignments == r.assignments {
      DisqualifiedDepends(r, r1);
    } else {
      DisqualifiedAgain(r, r1);
    }
  }

  /** One stretch after another. */
  lemma EffectOn(m: Raids, m1: Raids, m2: Raids, marks: set<RaidId>)
    requires Effect(m, m1, marks, {}) && Effect(m1, m2, marks, {})
    ensures Effect(m, m2, marks, {}) && Newly(m, m2) == Newly(m, m1) + Newly(m1, m2) && Newly(m, m1) !! Newly(m1, m2)
  {
    hide Stretch;
    EffectShrinksLive(m, m1, marks, {});
    EffectShrinksLive(m1, m2, marks, {});
    NewlyAdds(m, m1, m2);
    forall x | x in m
      ensures Stretch(m[x], m2[x], false) && m1[x].children == m[x].children && m1[x].parent == m[x].parent
    {
      StretchOn(m[x], m1[x], m2[x], false, false);
      StretchKeepsTree(m[x], m1[x], false);
    }
  }

  lemma StretchKeepsTree(r: Raid, r': Raid, own: bool)
    requires Stretch(r, r', own)
    ensures r'.children == r.children && r'.parent == r.parent && r'.deadline == r.deadline
    ensures r'.selected == r.selected && r'.reserves == r.reserves
  {
    hide DisqualifySelected, FinalizeRecord;
  }

  lemma EffectKeepsTree(m: Raids, m': Raids, marks: set<RaidId>, own: set<RaidId>)
    requires Effect(m, m', marks, own)
    ensures m'.Keys == m.Keys
    ensures forall x :: x in m ==> m'[x].children == m[x].children && m'[x].parent == m[x].parent
                                   && m'[x].deadline == m[x].deadline
                                   && m'[x].selected == m[x].selected && m'[x].reserves == m[x].reserves
  {
    hide Stretch;
    forall x | x in m
      ensures m'[x].children == m[x].children && m'[x].parent == m[x].parent && m'[x].deadline == m[x].deadline
      ensures m'[x].selected == m[x].selected && m'[x].reserves == m[x].reserves
    {
      StretchKeepsTree(m[x], m'[x], x in own);
    }
  }

  /** While nothing dies and nothing moves, the guard stays. */
  lemma GuardedStays(m: Raids, m': Raids, exposed: set<RaidId>)
    requires m'.Keys == m.Keys && (forall x :: x in m ==> m'[x].parent == m[x].parent) && (forall x :: Live(m', x) <==> Live(m, x))
    requires Guarded(m, exposed)
    ensures Guarded(m', exposed)
  {
    forall x | Live(m', x) && m'[x].parent.Some? && m'[x].parent.value in m' && Terminal(m'[m'[x].parent.value].status)
      ensures x in exposed
    {
      assert Live(m, x) && !Live(m', m[x].parent.value);
    }
  }

  /** A raid may die whose children are terminal or exposed. */
  lemma GuardedWithout(m: Raids, m': Raids, top: nat, exposed: set<RaidId>, id: RaidId)
    requires m'.Keys == m.Keys && (forall x :: x in m ==> m'[x].parent == m[x].parent)
    requires forall x :: x != id ==> (Live(m', x) <==> Live(m, x))
    requires WellFormed(m, top) && id in m && Guarded(m, exposed) && !Live(m', id)
    requires forall k :: 0 <= k < |m[id].children| ==> !Live(m, m[id].children[k]) || m[id].children[k] in exposed
    ensures Guarded(m', exposed)
  {
    forall x | Live(m', x) && m'[x].parent.Some? && m'[x].parent.value in m' && Terminal(m'[m'[x].parent.value].status)
      ensures x in exposed
    {
      var p := m[x].parent.value;
      assert Live(m, x) && !Live(m', p);
      if p == id {
        assert NodeOk(m, top, x);
        var k: nat :| k < |m[id].children| && m[id].children[k] == x;
      } else {
        assert !Live(m, p);
      }
    }
  }

  /** A raid below a terminal one is terminal when nothing is marked. */
  lemma {:induction false} TerminalBelow(m: Raids, top: nat, a: RaidId, x: RaidId)
    requires WellFormed(m, top) && Guarded(m, {}) && a in m && Terminal(m[a].status) && x in m && Below(m, a, x)
    ensures Terminal(m[x].status)
    decreases x
  {
    if x != a {
      assert NodeOk(m, top, x);
      TerminalBelow(m, top, a, m[x].parent.value);
    }
  }

  // ----- trees

  function RootOf(m: Raids, x: RaidId): RaidId
    decreases x
  {
    if x in m && m[x].parent.Some? && m[x].parent.value < x then RootOf(m, m[x].parent.value) else x
  }

  lemma {:induction false} RootOfSame(m: Raids, m': Raids, x: RaidId)
    requires m'.Keys == m.Keys && forall y :: y in m ==> m'[y].parent == m[y].parent
    ensures RootOf(m', x) == RootOf(m, x)
    decreases x
  {
    if x in m && m[x].parent.Some? && m[x].parent.value < x {
      RootOfSame(m, m', m[x].parent.value);
    }
  }

  lemma {:induction false} RootOfBelow(m: Raids, a: RaidId, x: RaidId)
    requires Below(m, a, x)
    ensures RootOf(m, x) == RootOf(m, a)
    decreases x
  {
    if x != a {
      RootOfBelow(m, a, m[x].parent.value);
    }
  }

  lemma {:induction false} RootIsAbove(m: Raids, top: nat, x: RaidId)
    requires WellFormed(m, top) && x in m
    ensures var r := RootOf(m, x); r in m && m[r].parent.None? && Below(m, r, x)
    decreases x
  {
    assert NodeOk(m, top, x);
    if m[x].parent.Some? {
      RootIsAbove(m, top, m[x].parent.value);
    }
  }

  /** Other trees are left alone. */
  ghost predicate Elsewhere(m: Raids, m': Raids, root: RaidId) {
    forall x :: x in m && x in m' && RootOf(m, x) != root ==> m'[x] == m[x]
  }

  lemma ElsewhereOn(m: Raids, m1: Raids, m2: Raids, root: RaidId)
    requires m1.Keys == m.Keys == m2.Keys && forall y :: y in m ==> m1[y].parent == m[y].parent
    requires Elsewhere(m, m1, root) && Elsewhere(m1, m2, root)
    ensures Elsewhere(m, m2, root)
  {
    forall x | x in m && RootOf(m, x) != root
      ensures m2[x] == m[x]
    {
      RootOfSame(m, m1, x);
    }
  }

  lemma RefreshElsewhere(m: Raids, m': Raids, id: RaidId)
    requires RefreshedBelow(m, m', id)
    ensures Elsewhere(m, m', RootOf(m, id))
  {
    hide Refreshed, Below, SameNode;
    forall x | x in m && RootOf(m, x) != RootOf(m, id)
      ensures m'[x] == m[x]
    {
      if Below(m, id, x) {
        RootOfBelow(m, id, x);
      }
    }
  }

  // ----- the whole of an expiry

  /** A live raid next to a visited one is visited, unless that one is still expiring. */
  ghost predicate Closed(m: Raids, visited: set<RaidId>, expiring: set<RaidId>) {
    && (forall x, k :: x in visited && x !in expiring && x in m && 0 <= k < |m[x].children| && Live(m, m[x].children[k]) ==>
          m[x].children[k] in visited)
    && (forall x :: x in visited && x !in expiring && x in m && m[x].parent.Some? && Live(m, m[x].parent.value) ==>
          m[x].parent.value in visited)
  }

  /** The topmost raid that is reached from `x` by live parents. */
  function TopOf(m: Raids, x: RaidId): RaidId
    decreases x
  {
    if x in m && m[x].parent.Some? && m[x].parent.value < x && Live(m, m[x].parent.value) then TopOf(m, m[x].parent.value) else x
  }

  /** The live raids that are linked with `x` by live raids. */
  function Linked(m: Raids, x: RaidId): set<RaidId> {
    set y | y in m && Live(m, y) && TopOf(m, y) == TopOf(m, x)
  }

  lemma {:induction false} TopIsLive(m: Raids, x: RaidId)
    requires Live(m, x)
    ensures Live(m, TopOf(m, x)) && TopOf(m, TopOf(m, x)) == TopOf(m, x) && RootOf(m, TopOf(m, x)) == RootOf(m, x)
    decreases x
  {
    if m[x].parent.Some? && m[x].parent.value < x && Live(m, m[x].parent.value) {
      TopIsLive(m, m[x].parent.value);
    }
  }

  /** The top has no live parent. */
  lemma {:induction false} NothingAboveTop(m: Raids, top: nat, x: RaidId)
    requires WellFormed(m, top) && Live(m, x)
    ensures var t := TopOf(m, x); t in m && (m[t].parent.Some? ==> !Live(m, m[t].parent.value))
    decreases x
  {
    assert NodeOk(m, top, x);
    if m[x].parent.Some? && Live(m, m[x].parent.value) {
      NothingAboveTop(m, top, m[x].parent.value);
    }
  }

  /** Without live raids below terminal ones the top is the root. */
  lemma {:induction false} TopIsRoot(m: Raids, top: nat, x: RaidId)
    requires WellFormed(m, top) && Guarded(m, {}) && Live(m, x)
    ensures TopOf(m, x) == RootOf(m, x)
    decreases x
  {
    assert NodeOk(m, top, x);
    if m[x].parent.Some? {
      TopIsRoot(m, top, m[x].parent.value);
    }
  }

  /** How far an expiry has come: what died was visited, and so were the live raids next to it. */
  ghost predicate Swept(m: Raids, m': Raids, top: nat, visited: set<RaidId>) {
    && WellFormed(m, top) && SameTree(m, m')
    && Newly(m, m') <= visited && Closed(m', visited, {})
  }

  lemma {:induction false} VisitedUp(m: Raids, m': Raids, top: nat, visited: set<RaidId>, x: RaidId)
    requires Swept(m, m', top, visited) && x in visited && Live(m, x)
    ensures TopOf(m, x) in visited
    decreases x
  {
    assert NodeOk(m, top, x);
    if m[x].parent.Some? && Live(m, m[x].parent.value) {
      var p := m[x].parent.value;
      assert !Live(m', p) ==> p in Newly(m, m');
      VisitedUp(m, m', top, visited, p);
    }
  }

  lemma {:induction false} VisitedDown(m: Raids, m': Raids, top: nat, visited: set<RaidId>, x: RaidId)
    requires Swept(m, m', top, visited) && Live(m, x) && TopOf(m, x) in visited
    ensures x in visited
    decreases x
  {
    assert NodeOk(m, top, x);
    if m[x].parent.Some? && Live(m, m[x].parent.value) {
      var p := m[x].parent.value;
      VisitedDown(m, m', top, visited, p);
      var k: nat :| k < |m[p].children| && m[p].children[k] == x;
      assert m'[p].children[k] == x && (!Live(m', x) ==> x in Newly(m, m'));
    }
  }

  /** Once one live raid was visited, all that are linked with it were. */
  lemma AllLinkedVisited(m: Raids, m': Raids, top: nat, visited: set<RaidId>, id: RaidId)
    requires Swept(m, m', top, visited) && Live(m, id) && (Live(m', id) ==> id in visited)
    ensures Linked(m, id) <= visited
  {
    hide WellFormed, SameTree, Closed, TopOf;
    assert !Live(m', id) ==> id in Newly(m, m');
    VisitedUp(m, m', top, visited, id);
    forall x | x in Linked(m, id)
      ensures x in visited
    {
      VisitedDown(m, m', top, visited, x);
    }
  }

  /** An expiry that began with the raids `begun` only comes to what is linked by `apex`. */
  ghost predicate Within(m: Raids, visited: set<RaidId>, begun: Raids, apex: RaidId) {
    && SameTree(begun, m) && (forall x :: Live(m, x) ==> Live(begun, x))
    && forall x :: x in visited ==> Live(begun, x) && TopOf(begun, x) == apex
  }

  predicate Near(m: Raids, begun: Raids, apex: RaidId, x: RaidId) {
    Live(m, x) ==> TopOf(begun, x) == apex
  }

  lemma WithinStarts(m: Raids, id: RaidId)
    ensures Within(m, {}, m, TopOf(m, id)) && Near(m, m, TopOf(m, id), id)
  {
  }

  lemma WithinEnters(m: Raids, visited: set<RaidId>, begun: Raids, apex: RaidId, id: RaidId)
    requires Within(m, visited, begun, apex) && Live(m, id) && Near(m, begun, apex, id)
    ensures Within(m, visited + {id}, begun, apex)
  {
    hide SameTree, TopOf;
  }

  lemma WithinStays(m: Raids, m': Raids, visited: set<RaidId>, begun: Raids, apex: RaidId)
    requires Within(m, visited, begun, apex) && SameTree(m, m') && forall x :: Live(m', x) ==> Live(m, x)
    ensures Within(m', visited, begun, apex)
  {
    hide TopOf;
  }

  /** The live neighbours of a visited raid are linked, too. */
  lemma NearNeighbours(m: Raids, top: nat, visited: set<RaidId>, begun: Raids, apex: RaidId, id: RaidId)
    requires WellFormed(m, top) && Within(m, visited, begun, apex) && id in visited
    ensures id in m
    ensures m[id].parent.Some? ==> Near(m, begun, apex, m[id].parent.value)
    ensures forall k :: 0 <= k < |m[id].children| ==> Near(m, begun, apex, m[id].children[k])
  {
    assert NodeOk(m, top, id);
    forall k | 0 <= k < |m[id].children|
      ensures Near(m, begun, apex, m[id].children[k])
    {
      assert NodeOk(m, top, m[id].children[k]);
    }
  }

  // ----- assembling one expiry

  lemma DisqualifiedKeeps(r: Raid)
    ensures DisqualifyAll(r) == r.(assignments := DisqualifyAll(r).assignments)
    ensures DisqualifyAll(r).assignments.Keys == r.assignments.Keys
  {
    DisqualifySelectedSettles(r, |r.selected|);
  }

  /** The stretches of one expiry of `id`: its children, its own disqualification, its
      ancestors, and its finalization, which is refused to a raid that is marked. */
  lemma ExpiryAssembled(m: Raids, m1: Raids, m2: Raids, m3: Raids, m4: Raids, marks: set<RaidId>, id: RaidId)
    requires Live(m, id) && id !in marks
    requires Effect(m, m1, marks + {id}, {}) && m2 == m1[id := DisqualifyAll(m1[id])]
    requires Effect(m2, m3, marks + {id}, {}) && Effect(m3, m4, marks + {id}, {id})
    requires id in Newly(m3, m4) || (m4 == m3 && m[id].children != [])
    ensures Effect(m, m4, marks, {})
    ensures Newly(m, m4) == Newly(m, m1) + Newly(m2, m3) + Newly(m3, m4)
    ensures Newly(m, m1) !! Newly(m2, m3) !! Newly(m3, m4)
  {
    hide Stretch, DisqualifyAll;
    EffectShrinksLive(m, m1, marks + {id}, {});
    EffectShrinksLive(m2, m3, marks + {id}, {});
    EffectShrinksLive(m3, m4, marks + {id}, {id});
    DisqualifiedKeeps(m1[id]);
    NewlyThrough(m, m1, m2, m3, m4, marks, id);
    ExpiryKeepsTree(m, m1, m2, m3, m4, marks, id);
    forall x | x in m
      ensures Stretch(m[x], m4[x], false)
    {
      if x == id {
        OwnStretch(m[x], m1[x], m3[x], m4[x]);
      } else {
        StretchOn(m[x], m1[x], m3[x], false, false);
        StretchOn(m[x], m3[x], m4[x], false, false);
      }
    }
  }

  lemma ExpiryKeepsTree(m: Raids, m1: Raids, m2: Raids, m3: Raids, m4: Raids, marks: set<RaidId>, id: RaidId)
    requires id in m && Effect(m, m1, marks + {id}, {}) && m2 == m1[id := DisqualifyAll(m1[id])]
    requires Effect(m2, m3, marks + {id}, {}) && Effect(m3, m4, marks + {id}, {id})
    ensures m4.Keys == m.Keys == m1.Keys == m2.Keys == m3.Keys
    ensures forall x :: x in m ==> m1[x].children == m2[x].children == m3[x].children == m[x].children
                                   && m1[x].parent == m2[x].parent == m3[x].parent == m[x].parent
  {
    hide Stretch, DisqualifyAll;
    EffectKeepsTree(m, m1, marks + {id}, {});
    EffectKeepsTree(m2, m3, marks + {id}, {});
    EffectKeepsTree(m3, m4, marks + {id}, {id});
    DisqualifiedKeeps(m1[id]);
  }

  lemma NewlyThrough(m: Raids, m1: Raids, m2: Raids, m3: Raids, m4: Raids, marks: set<RaidId>, id: RaidId)
    requires id in m && Effect(m, m1, marks + {id}, {}) && m2 == m1[id := DisqualifyAll(m1[id])]
    requires Effect(m2, m3, marks + {id}, {}) && Effect(m3, m4, marks + {id}, {id})
    ensures Newly(m, m4) == Newly(m, m1) + Newly(m2, m3) + Newly(m3, m4)
    ensures Newly(m, m1) !! Newly(m2, m3) !! Newly(m3, m4)
    ensures forall x :: x in m ==> (Live(m1, x) <==> Live(m2, x))
  {
    hide Stretch, DisqualifyAll, Effect;
    ExpiryKeepsTree(m, m1, m2, m3, m4, marks, id);
    EffectShrinksLive(m, m1, marks + {id}, {});
    EffectShrinksLive(m2, m3, marks + {id}, {});
    EffectShrinksLive(m3, m4, marks + {id}, {id});
    DisqualifiedKeeps(m1[id]);
    assert forall x :: x in m ==> (Live(m1, x) <==> Live(m2, x));
    NewlyAdds(m, m1, m3);
    NewlyAdds(m, m3, m4);
    assert Newly(m1, m3) == Newly(m2, m3);
  }

  /** The raid that expires: as its children go, disqualified, as its ancestors go, and then
      finalized or left. */
  lemma OwnStretch(r: Raid, r1: Raid, r3: Raid, r4: Raid)
    requires Stretch(r, r1, false) && Stretch(DisqualifyAll(r1), r3, false) && Stretch(r3, r4, true)
    requires !Terminal(r.status) && !Terminal(r1.status) && !Terminal(r3.status)
    requires Terminal(r4.status) || (r4 == r3 && r.children != [])
    ensures Stretch(r, r4, false)
  {
    hide DisqualifyAll, FinalizeRecord, PlanDrains;
    var d := DisqualifyAll(r1);
    DisqualifiedKeeps(r1);
    DisqualifiedKeeps(r);
    if r1.assignments == r.assignments {
      DisqualifiedDepends(r, r1);
    } else {
      DisqualifiedAgain(r, r1);
    }
    DisqualifiedAgain(r, d);
    DisqualifiedAgain(r, r3);
    PlanDrainsOn(r.planning, r1.planning, r3.planning);
    PlanDrainsOn(r.planning, r3.planning, r4.planning);
  }

  /** Disqualifying twice is disqualifying once. */
  lemma DisqualifiedAgain(r: Raid, r1: Raid)
    requires r1.selected == r.selected && r1.assignments == DisqualifyAll(r).assignments
    ensures DisqualifyAll(r1).assignments == DisqualifyAll(r).assignments
  {
    DisqualifySelectedSettles(r, |r.selected|);
    DisqualifySelectedSettles(r1, |r.selected|);
    hide DisqualifySelected;
    var d, e := DisqualifyAll(r).assignments, DisqualifyAll(r1).assignments;
    assert r.selected[..|r.selected|] == r.selected;
    forall p | p in d
      ensures e[p] == d[p]
    {
    }
  }

  lemma DisqualifiedDepends(r: Raid, r1: Raid)
    requires r1.selected == r.selected && r1.assignments == r.assignments
    ensures DisqualifyAll(r1).assignments == DisqualifyAll(r).assignments
  {
    DisqualifySelectedDepends(r, r1, |r.selected|);
  }

  lemma {:induction false} DisqualifySelectedDepends(r: Raid, r1: Raid, n: nat)
    requires r1.selected == r.selected && r1.assignments == r.assignments && n <= |r.selected|
    ensures DisqualifySelected(r1, n).assignments == DisqualifySelected(r, n).assignments
  {
    if n > 0 {
      DisqualifySelectedDepends(r, r1, n - 1);
      DisqualifySelectedSettles(r, n - 1);
      DisqualifySelectedSettles(r1, n - 1);
    }
  }

  /** Disqualifying a raid whose providers have all settled changes nothing. */
  lemma {:induction false} SettledStays(r: Raid, n: nat)
    requires ShouldFinalize(r) && n <= |r.selected|
    ensures DisqualifySelected(r, n) == r
  {
    if n > 0 {
      SettledStays(r, n - 1);
    }
  }

  // ----- assembling one finalization

  lemma FinalStretch(r: Raid, r1: Raid, r4: Raid)
    requires Stretch(r, r1, false) && !Terminal(r.status) && !Terminal(r1.status) && Stretch(FinalizeRecord(r1), r4, false)
    ensures Stretch(r, r4, true) && Terminal(r4.status)
  {
    hide DisqualifySelected, Rank;
  }

  lemma FinalizeKeeps(r: Raid)
    ensures var f := FinalizeRecord(r);
            f == r.(status := Final, ranked := f.ranked, primary := f.primary)
  {
  }

  /** The stretches of one finalization of `id`: the refresh, the record, and its ancestors. */
  lemma FinalizationAssembled(m: Raids, m1: Raids, m2: Raids, m4: Raids, marks: set<RaidId>, id: RaidId)
    requires Live(m, id) && Refreshing(m, m1) && m2 == m1[id := FinalizeRecord(m1[id])]
    requires Effect(m2, m4, marks, {})
    ensures Effect(m, m4, marks, {id}) && id in Newly(m, m4)
    ensures Newly(m, m4) == {id} + Newly(m2, m4) && id !in Newly(m2, m4)
  {
    hide Stretch, FinalizeRecord, DisqualifyAll, Refreshing, Live;
    EffectOfRefreshing(m, m1, marks);
    FinalizationStretches(m, m1, m2, m4, marks, id);
    FinalizationNewly(m, m1, m2, m4, marks, id);
  }

  lemma FinalizationStretches(m: Raids, m1: Raids, m2: Raids, m4: Raids, marks: set<RaidId>, id: RaidId)
    requires Live(m, id) && Refreshing(m, m1) && m2 == m1[id := FinalizeRecord(m1[id])] && Effect(m2, m4, marks, {})
    ensures m4.Keys == m.Keys == m2.Keys
    ensures forall x :: x in m ==> Stretch(m[x], m4[x], x == id)
    ensures forall x :: x in m ==> m2[x].children == m[x].children && m2[x].parent == m[x].parent
  {
    hide Stretch, FinalizeRecord, DisqualifyAll, Refreshing;
    EffectOfRefreshing(m, m1, marks);
    EffectKeepsTree(m, m1, marks, {});
    FinalizeKeeps(m1[id]);
    forall x | x in m
      ensures Stretch(m[x], m4[x], x == id)
    {
      if x == id {
        FinalStretch(m[id], m1[id], m4[id]);
      } else {
        StretchOn(m[x], m1[x], m4[x], false, false);
      }
    }
  }

  lemma FinalizationLive(m: Raids, m1: Raids, m2: Raids, m4: Raids, marks: set<RaidId>, id: RaidId)
    requires Live(m, id) && Refreshing(m, m1) && m2 == m1[id := FinalizeRecord(m1[id])] && Effect(m2, m4, marks, {})
    ensures m2.Keys == m.Keys && !Live(m2, id)
    ensures forall x :: x != id ==> (Live(m2, x) <==> Live(m, x))
    ensures forall x :: Live(m4, x) ==> Live(m2, x)
  {
    hide Stretch, FinalizeRecord, Refreshing;
    EffectOfRefreshing(m, m1, marks);
    FinalizeKeeps(m1[id]);
    EffectShrinksLive(m2, m4, marks, {});
  }

  lemma FinalizationNewly(m: Raids, m1: Raids, m2: Raids, m4: Raids, marks: set<RaidId>, id: RaidId)
    requires Live(m, id) && Refreshing(m, m1) && m2 == m1[id := FinalizeRecord(m1[id])] && Effect(m2, m4, marks, {})
    ensures Newly(m, m4) == {id} + Newly(m2, m4) && id in Newly(m, m4) && id !in Newly(m2, m4)
    ensures forall x :: !Live(m, x) ==> !Live(m4, x)
  {
    FinalizationLive(m, m1, m2, m4, marks, id);
    LiveInMap(m, id);
    hide Live, FinalizeRecord, Refreshing, Effect;
  }

  lemma LiveInMap(m: Raids, id: RaidId)
    requires Live(m, id)
    ensures id in m
  {
  }

  /** A finalization on its own account: the raid had nobody left to disqualify. */
  lemma OwnDropped(m: Raids, m': Raids, marks: set<RaidId>, id: RaidId)
    requires id in m && Effect(m, m', marks, {id}) && id !in marks
    requires m[id].children != [] || ShouldFinalize(m[id])
    ensures Effect(m, m', marks, {})
  {
    hide FinalizeRecord, ShouldFinalize;
    if m[id].children == [] {
      SettledStays(m[id], |m[id].selected|);
    }
    forall x | x in m
      ensures Stretch(m[x], m'[x], false)
    {
      assert Stretch(m[x], m'[x], x in {id});
    }
  }
}
