/** The books of all plans, and the guard, over the steps that grow or finalize trees. */
module PlanBooks {
  import opened Options
  import opened Sequences
  import opened RaidState
  import opened RaidTree
  import opened Spawning
  import opened Adaptive
  import opened Replanning
  import opened Expiry

  /** Every plan is right by its books. */
  ghost predicate BooksOk(m: Raids, top: nat, books: map<RaidId, Books>, env: Environment) {
    && (forall x :: x in books ==> x in m)
    && forall x :: x in m && m[x].planning.Some? ==> x in books && PlanningOk(m, top, m[x].planning.value, books[x], env)
  }

  /** Only roots have plans. */
  predicate PlansAtRoots(m: Raids) {
    forall x :: x in m && m[x].planning.Some? ==> m[x].parent.None?
  }

  /** Marked raids are there, and a live one, which a revision reopened, is no root and no leaf. */
  predicate MarksOk(m: Raids, finalizing: set<RaidId>) {
    forall x :: x in finalizing ==> x in m && (Live(m, x) ==> m[x].parent.Some? && m[x].children != [])
  }

  /** Providers are only added where there are reserves. */
  predicate SameProviders(m: Raids, m': Raids) {
    forall x :: x in m ==> x in m' && m'[x].reserves == m[x].reserves && (m[x].reserves == [] ==> m'[x].selected == m[x].selected)
  }

  predicate SamePlans(m: Raids, m': Raids) {
    m'.Keys == m.Keys && SameProviders(m, m') && forall x :: x in m ==> m'[x].planning == m[x].planning
  }

  lemma PlanningKept(m: Raids, m': Raids, top: nat, top': nat, a: RaidState.Adaptive, books: Books, env: Environment)
    requires PlanningOk(m, top, a, books, env) && SameProviders(m, m') && top <= top'
    ensures PlanningOk(m', top', a, books, env)
  {
    hide Counted, HistoryOk, Granted;
    GrantedKept(m, m', top, books.made);
  }

  lemma BooksKept(m: Raids, m': Raids, top: nat, books: map<RaidId, Books>, env: Environment)
    requires BooksOk(m, top, books, env) && SamePlans(m, m')
    ensures BooksOk(m', top, books, env)
  {
    hide PlanningOk;
    forall x | x in m' && m'[x].planning.Some?
      ensures PlanningOk(m', top, m'[x].planning.value, books[x], env)
    {
      PlanningKept(m, m', top, top, m[x].planning.value, books[x], env);
    }
  }

  lemma RefreshingKeepsPlans(m: Raids, m': Raids)
    requires Refreshing(m, m')
    ensures SamePlans(m, m')
  {
    forall x | x in m
      ensures m'[x].planning == m[x].planning && m'[x].reserves == m[x].reserves && m'[x].selected == m[x].selected
    {
      assert SameNode(m[x], m'[x]);
    }
  }

  lemma UpdateKeepsPlans(m: Raids, id: RaidId, r: Raid)
    requires id in m && r.planning == m[id].planning && r.reserves == m[id].reserves
    requires m[id].reserves == [] ==> r.selected == m[id].selected
    ensures SamePlans(m, m[id := r])
  {
  }

  lemma UpdateKeepsTree(m: Raids, top: nat, id: RaidId, r: Raid)
    requires WellFormed(m, top) && id in m
    requires r.parent == m[id].parent && r.children == m[id].children && r.deadline == m[id].deadline
    ensures WellFormed(m[id := r], top)
  {
    WellFormedSameTree(m, m[id := r], top);
  }

  // ----- replanning

  lemma DrainBooks(m: Raids, m': Raids, next: nat, id: RaidId, env: Environment, gone: nat, books: map<RaidId, Books>)
    requires BooksOk(m, next, books, env) && PoolDrained(m, m', id, env, gone)
    ensures id in books
    ensures BooksOk(m', next, books[id := BooksAfter(books[id], env, m[id].planning.value.available, gone, [])], env)
  {
    hide PlanningOk, KnownOf;
    DrainKeepsBooks(m, m', next, id, env, gone, books[id]);
    forall x | x in m' && m'[x].planning.Some? && x != id
      ensures PlanningOk(m', next, m'[x].planning.value, books[x], env)
    {
      PlanningKept(m, m', next, next, m[x].planning.value, books[x], env);
    }
  }

  lemma DrainEffect(m: Raids, m': Raids, next: nat, id: RaidId, env: Environment, gone: nat, marks: set<RaidId>)
    requires WellFormed(m, next) && PoolDrained(m, m', id, env, gone) && m[id].children != []
    ensures Effect(m, m', marks, {}) && Newly(m, m') == {} && WellFormed(m', next) && Elsewhere(m, m', RootOf(m, id))
  {
    hide KnownOf, DisqualifyAll, FinalizeRecord, NodeOk, WellFormed, RootOf;
    SuffixAt(m[id].planning.value.available, gone);
    UpdateKeepsTree(m, next, id, m'[id]);
    forall x | x in m
      ensures Stretch(m[x], m'[x], false) && (Live(m', x) <==> Live(m, x))
    {
      assert x != id ==> m'[x] == m[x];
    }
  }

  lemma RevisionOthers(m: Raids, m': Raids, next: nat, next': nat, id: RaidId, env: Environment, ch: Change)
    requires Replanned(m, m', next, next', id, env, ch)
    ensures SameProviders(m, m') && next <= next' && WellFormed(m', next')
    ensures forall x :: x in m && x != id ==> m'[x].planning == m[x].planning
    ensures forall x :: x in m' && x !in m ==> m'[x].planning.None?
  {
    hide Targeted, Took, Revises, MayReplan, Below, NextPlanning, Mirrors, WellFormed, SelectedOf;
  }

  lemma RevisionBooks(m: Raids, m': Raids, next: nat, next': nat, id: RaidId, env: Environment, ch: Change, books: map<RaidId, Books>)
    requires EnvironmentOk(env) && BooksOk(m, next, books, env) && Replanned(m, m', next, next', id, env, ch)
    ensures id in m && m[id].planning.Some? && ch.gone <= |m[id].planning.value.available| && id in books
    ensures BooksOk(m', next', books[id := BooksAfter(books[id], env, m[id].planning.value.available, ch.gone, [(next, next')])], env)
  {
    hide PlanningOk, Replanned, Added, EnvironmentOk, IsCandidate, KnownOf, SameProviders, Planning.Chosen;
    RevisionFacts(m, m', next, next', id, env, ch);
    RevisionOthers(m, m', next, next', id, env, ch);
    RevisionKeepsBooks(m, m', next, next', id, env, ch, books[id]);
    forall x | x in m && m'[x].planning.Some? && x != id
      ensures PlanningOk(m', next', m'[x].planning.value, books[x], env)
    {
      PlanningKept(m, m', next, next', m[x].planning.value, books[x], env);
    }
  }

  lemma RevisionStatuses(m: Raids, m': Raids, next: nat, next': nat, id: RaidId, env: Environment, ch: Change)
    requires Replanned(m, m', next, next', id, env, ch)
    ensures forall x :: x in m ==>
              && x in m' && m'[x].parent == m[x].parent
              && (Live(m', x) <==> Live(m, x) || Below(m, x, ch.target.parent))
    ensures forall x :: x in m' && x !in m ==>
              Live(m', x) && m'[x].parent.Some? && (m'[x].parent.value == ch.target.parent || Live(m', m'[x].parent.value))
    ensures ch.target.parent in m && Below(m, id, ch.target.parent) && Live(m, id) && Live(m', id) && Live(m', ch.target.parent)
  {
    hide Took, Revises, Below, NextPlanning, Mirrors, WellFormed, SelectedOf, GroupCandidate, Precedes, Planning.Chosen;
    BelowItself(m, ch.target.parent);
  }

  /** Replanning reopens whatever is above what it adds: nothing more is exposed. */
  lemma RevisionGuarded(m: Raids, m': Raids, next: nat, next': nat, id: RaidId, env: Environment, ch: Change, exposed: set<RaidId>)
    requires WellFormed(m, next) && Guarded(m, exposed) && Replanned(m, m', next, next', id, env, ch)
    ensures Guarded(m', exposed)
  {
    hide Replanned, Below;
    RevisionStatuses(m, m', next, next', id, env, ch);
    forall x | Live(m', x) && m'[x].parent.Some? && m'[x].parent.value in m' && Terminal(m'[m'[x].parent.value].status)
      ensures x in exposed
    {
      var p := m'[x].parent.value;
      if x in m {
        ParentThere(m, next, x);
        AncestorsOf(m, next, x);
        if Below(m, x, ch.target.parent) {
          BelowTransitive(m, p, x, ch.target.parent);
        }
      }
    }
  }

  lemma ParentThere(m: Raids, top: nat, x: RaidId)
    requires WellFormed(m, top) && x in m
    ensures m[x].parent.Some? ==> m[x].parent.value in m && m[m[x].parent.value].deadline == m[x].deadline
  {
    assert NodeOk(m, top, x);
  }

  /** Roots and leaves never leave a terminal status, and an inner raid does so only when
      something was added below it. */
  lemma RevisionReopensOnlyAbove(m: Raids, m': Raids, next: nat, next': nat, id: RaidId, env: Environment, ch: Change, x: RaidId)
    requires WellFormed(m, next) && PlansAtRoots(m) && Replanned(m, m', next, next', id, env, ch)
    requires x in m && !Live(m, x) && Live(m', x)
    ensures m[x].parent.Some? && m[x].children != [] && m'[x].status == Dispatching
    ensures next in m' && next !in m && Below(m', x, next)
  {
    hide Took, Revises, NextPlanning, Mirrors, SelectedOf, GroupCandidate, Precedes, WellFormed, NodeOk, Fresh, Planning.Chosen;
    RevisionStatuses(m, m', next, next', id, env, ch);
    var p := ch.target.parent;
    BetweenOrAbove(m, id, x, p);
    RootNotBelow(m, id, x);
    RootNotBelow(m, x, id);
    AncestorsOf(m, next, x);
    BelowSameParents(m, m', x, p);
    AddedFirst(m, m', next, next', ch);
    NotYetThere(m, next);
    if x != p {
      HasDescendant(m, next, x, p);
    }
    TargetHasChildren(m, env, id, ch.target);
  }

  lemma NotYetThere(m: Raids, next: nat)
    requires WellFormed(m, next)
    ensures next !in m
  {
    assert next in m ==> NodeOk(m, next, next);
  }

  /** Only itself is above a root. */
  lemma RootNotBelow(m: Raids, r: RaidId, a: RaidId)
    requires r in m
    ensures m[r].parent.None? && Below(m, a, r) ==> a == r
  {
  }

  lemma RevisionMarks(m: Raids, m': Raids, next: nat, next': nat, id: RaidId, env: Environment, ch: Change, finalizing: set<RaidId>)
    requires WellFormed(m, next) && PlansAtRoots(m) && MarksOk(m, finalizing) && Replanned(m, m', next, next', id, env, ch)
    ensures MarksOk(m', finalizing) && PlansAtRoots(m')
  {
    hide Replanned, Below, WellFormed;
    RevisionStatuses(m, m', next, next', id, env, ch);
    RevisionOthers(m, m', next, next', id, env, ch);
    RevisionChildren(m, m', next, next', id, env, ch);
    forall x | x in finalizing && Live(m', x)
      ensures m'[x].parent.Some? && m'[x].children != []
    {
      if !Live(m, x) {
        RevisionReopensOnlyAbove(m, m', next, next', id, env, ch, x);
      }
    }
  }

  lemma RevisionChildren(m: Raids, m': Raids, next: nat, next': nat, id: RaidId, env: Environment, ch: Change)
    requires Replanned(m, m', next, next', id, env, ch)
    ensures forall x :: x in m ==> x in m' && m[x].children <= m'[x].children
    ensures id in m && m[id].planning.Some?
    ensures forall x :: x in m ==> PlanLater(m[x].planning, m'[x].planning)
  {
    hide Revises, Added, Below, Targeted, KnownOf;
    forall x | x in m
      ensures m[x].children <= m'[x].children && PlanLater(m[x].planning, m'[x].planning)
    {
      assert m'[x] == AfterRevision(m, next, id, ch, x);
    }
    SuffixAt(m[id].planning.value.available, ch.gone);
  }

  lemma AboveLiveIsLive(m: Raids, top: nat, id: RaidId)
    requires WellFormed(m, top) && Guarded(m, {}) && Live(m, id)
    ensures m[id].parent.Some? ==> Live(m, m[id].parent.value)
  {
    assert NodeOk(m, top, id);
  }

  /** Two raids above the same one are one above the other. */
  lemma {:induction false} BetweenOrAbove(m: Raids, a: RaidId, b: RaidId, x: RaidId)
    requires Below(m, a, x) && Below(m, b, x)
    ensures Below(m, a, b) || Below(m, b, a)
    decreases x
  {
    if x != a && x != b {
      BetweenOrAbove(m, a, b, m[x].parent.value);
    }
  }

  lemma {:induction false} BelowSameParents(m: Raids, m': Raids, a: RaidId, x: RaidId)
    requires forall y :: y in m ==> y in m' && m'[y].parent == m[y].parent
    requires Below(m, a, x)
    ensures Below(m', a, x)
    decreases x
  {
    if x != a {
      BelowSameParents(m, m', a, m[x].parent.value);
    }
  }

  lemma AddedFirst(m: Raids, m': Raids, next: nat, next': nat, ch: Change)
    requires Added(m, m', next, next', ch)
    ensures next in m' && m'[next].parent == Some(ch.target.parent) && ch.target.parent < next
  {
    hide Fresh, SelectedOf;
    assert NodeOk(m', next', next);
  }

  lemma {:induction false} HasDescendant(m: Raids, top: nat, x: RaidId, y: RaidId)
    requires WellFormed(m, top) && x in m && Below(m, x, y) && y != x
    ensures m[x].children != []
    decreases y
  {
    assert NodeOk(m, top, y);
    if m[y].parent.value != x {
      HasDescendant(m, top, x, m[y].parent.value);
    }
  }

  lemma TargetHasChildren(m: Raids, env: Environment, id: RaidId, t: Candidate)
    requires id in m && m[id].planning.Some? && Targeted(m, id, env, t)
    ensures m[t.parent].children != []
  {
    GroupCandidateStream(m, env, m[id].planning.value, t.parent, t.workstream, Distance(m, id, t.parent));
  }
}
