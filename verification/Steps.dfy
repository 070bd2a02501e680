/** What one uninterrupted block of work keeps, whatever it is. */
module Steps {
  import opened Options
  import opened Sequences
  import opened RaidState
  import opened RaidTree
  import opened Spawning
  import opened Adaptive
  import opened Replanning
  import opened Expiry
  import opened PlanBooks
  import opened Runs
  import Aggregation
  import Cancellation
  import Planning

  // ----- over any stretch of time

  /** Something new is below the raid. */
  ghost predicate NewBelow(m: Raids, m': Raids, x: RaidId) {
    exists y :: y in m' && y !in m && Below(m', x, y)
  }

  /** No raid goes away or moves, leaves stay leaves, roots and leaves never leave a terminal
      status and other raids only with a new raid below, and plans only use up their pools. */
  ghost predicate Later(m: Raids, m': Raids) {
    forall x :: x in m ==>
      && x in m' && m'[x].parent == m[x].parent && m'[x].deadline == m[x].deadline
      && m[x].children <= m'[x].children && (m[x].children == [] ==> m'[x].children == [])
      && (Terminal(m[x].status) && (m[x].parent.None? || m[x].children == []) ==> m'[x].status == m[x].status)
      && (Terminal(m[x].status) && !Terminal(m'[x].status) ==> NewBelow(m, m', x))
      && PlanLater(m[x].planning, m'[x].planning)
  }

  lemma LaterOn(m: Raids, m1: Raids, m2: Raids)
    requires Later(m, m1) && Later(m1, m2)
    ensures Later(m, m2)
  {
    hide PlanLater, NewBelow;
    forall x | x in m
      ensures PlanLater(m[x].planning, m2[x].planning)
      ensures Terminal(m[x].status) && !Terminal(m2[x].status) ==> NewBelow(m, m2, x)
    {
      PlanLaterOn(m[x].planning, m1[x].planning, m2[x].planning);
      NewBelowOn(m, m1, m2, x);
    }
  }

  lemma PlanLaterOn(p: Option<RaidState.Adaptive>, p1: Option<RaidState.Adaptive>, p2: Option<RaidState.Adaptive>)
    requires PlanLater(p, p1) && PlanLater(p1, p2)
    ensures PlanLater(p, p2)
  {
    if p.Some? {
      SuffixOn(p.value.available, p1.value.available, p2.value.available);
    }
  }

  lemma NewBelowOn(m: Raids, m1: Raids, m2: Raids, x: RaidId)
    requires forall y :: y in m ==> y in m1
    requires forall y :: y in m1 ==> y in m2 && m2[y].parent == m1[y].parent
    ensures NewBelow(m, m1, x) || NewBelow(m1, m2, x) ==> NewBelow(m, m2, x)
  {
    hide Below;
    if NewBelow(m, m1, x) {
      var y :| y in m1 && y !in m && Below(m1, x, y);
      BelowSameParents(m1, m2, x, y);
    }
  }

  /** Raids and books later on. */
  ghost predicate Onward(m: Raids, books: map<RaidId, Books>, m': Raids, books': map<RaidId, Books>) {
    Later(m, m') && BooksExtend(books, books')
  }

  lemma OnwardOn(m: Raids, b: map<RaidId, Books>, m1: Raids, b1: map<RaidId, Books>, m2: Raids, b2: map<RaidId, Books>)
    requires Onward(m, b, m1, b1) && Onward(m1, b1, m2, b2)
    ensures Onward(m, b, m2, b2)
  {
    hide Later, BooksExtend;
    LaterOn(m, m1, m2);
    BooksExtendOn(b, b1, b2);
  }

  lemma OnwardItself(m: Raids, b: map<RaidId, Books>)
    ensures Onward(m, b, m, b)
  {
    hide Later;
    LaterItself(m);
  }

  lemma OnwardIs(m: Raids, b: map<RaidId, Books>, m': Raids, b': map<RaidId, Books>)
    ensures Onward(m, b, m', b') <==> Later(m, m') && BooksExtend(b, b')
    ensures BooksExtend(b, b)
  {
    hide Later;
  }

  lemma EffectLater(m: Raids, m': Raids, marks: set<RaidId>, own: set<RaidId>)
    requires Effect(m, m', marks, own)
    ensures Later(m, m')
  {
    hide FinalizeRecord, DisqualifyAll, NewBelow;
    EffectKeepsTree(m, m', marks, own);
    forall x | x in m
      ensures Terminal(m[x].status) ==> m'[x].status == m[x].status
      ensures PlanLater(m[x].planning, m'[x].planning)
    {
      assert Stretch(m[x], m'[x], x in own);
    }
  }

  lemma RevisionLater(m: Raids, m': Raids, next: nat, next': nat, id: RaidId, env: Environment, ch: Change)
    requires WellFormed(m, next) && PlansAtRoots(m) && Replanned(m, m', next, next', id, env, ch)
    ensures Later(m, m')
  {
    hide Replanned, WellFormed, Below, PlanLater;
    RevisionStatuses(m, m', next, next', id, env, ch);
    RevisionTarget(m, m', next, next', id, env, ch);
    RevisionChildren(m, m', next, next', id, env, ch);
    forall x | x in m
      ensures m'[x].deadline == m[x].deadline && m[x].children <= m'[x].children
      ensures m[x].children == [] ==> m'[x].children == []
      ensures Terminal(m[x].status) && (m[x].parent.None? || m[x].children == []) ==> m'[x].status == m[x].status
      ensures Terminal(m[x].status) && !Terminal(m'[x].status) ==> NewBelow(m, m', x)
    {
      if Terminal(m[x].status) && Live(m', x) {
        RevisionReopensOnlyAbove(m, m', next, next', id, env, ch, x);
      }
    }
  }

  lemma RevisionTarget(m: Raids, m': Raids, next: nat, next': nat, id: RaidId, env: Environment, ch: Change)
    requires Replanned(m, m', next, next', id, env, ch)
    ensures ch.target.parent in m && m[ch.target.parent].children != []
    ensures forall x :: x in m ==>
              && x in m' && m'[x].deadline == m[x].deadline
              && m'[x].children == m[x].children + (if x == ch.target.parent then [next] else [])
              && (!Live(m', x) ==> m'[x].status == m[x].status)
  {
    hide Revises, Added, Below, NextPlanning, Targeted, KnownOf;
    RevisionStatuses(m, m', next, next', id, env, ch);
    TargetHasChildren(m, env, id, ch.target);
  }

  lemma GrewLater(m: Raids, m': Raids, next: nat, next': nat, root: RaidId, env: Environment)
    requires WellFormed(m, next) && PlansAtRoots(m) && Grew(m, m', next, next', root, env)
    ensures Later(m, m')
    ensures next' != next ==> forall x :: Live(m, x) ==> Live(m', x)
  {
    hide Replanned, WellFormed, PlansAtRoots, Later;
    if next' != next {
      var r, ch :| RootOf(m, r) == root && Replanned(m, m', next, next', r, env, ch);
      RevisionLater(m, m', next, next', r, env, ch);
      RevisionStatuses(m, m', next, next', r, env, ch);
    } else {
      LaterItself(m);
    }
  }

  // ----- marks at the ends of blocks

  /** The live raids below terminal ones. */
  function Exposed(m: Raids): set<RaidId> {
    set x | x in m && Live(m, x) && m[x].parent.Some? && m[x].parent.value in m && Terminal(m[m[x].parent.value].status)
  }

  lemma ExposedGuards(m: Raids)
    ensures Guarded(m, Exposed(m)) && (Guarded(m, {}) <==> Exposed(m) == {})
  {
    if !Guarded(m, {}) {
      var x :| Live(m, x) && m[x].parent.Some? && m[x].parent.value in m && Terminal(m[m[x].parent.value].status);
      assert x in Exposed(m);
    }
  }

  /** The marks of `finalizeRaid` wait for a settlement only at roots; all others are given up
      as soon as their continuation is run. */
  predicate RootMarks(m: Raids, finalizing: set<RaidId>) {
    forall x :: x in finalizing ==> x in m && m[x].parent.None?
  }

  function RootsOf(m: Raids, finalizing: set<RaidId>): set<RaidId> {
    set x | x in finalizing && x in m && m[x].parent.None?
  }

  lemma RootsOfMarks(m: Raids, finalizing: set<RaidId>)
    ensures RootMarks(m, RootsOf(m, finalizing)) && RootsOf(m, finalizing) <= finalizing
  {
  }

  /** Roots are never live and marked. */
  lemma RootMarksCatchNone(m: Raids, finalizing: set<RaidId>)
    requires MarksOk(m, finalizing) && RootMarks(m, finalizing)
    ensures Caught(m, finalizing) == {}
  {
  }

  ghost predicate TreeDead(m: Raids, root: RaidId) {
    forall x :: x in m && RootOf(m, x) == root ==> !Live(m, x)
  }

  /** What a block of finalization leaves of all raids. */
  lemma BlockLater(s: Snapshot, s': Snapshot, m': Raids, top: nat, next: nat, next': nat, root: RaidId, env: Environment)
    requires WellFormed(s.raids, top) && PlansAtRoots(s.raids) && top == next
    requires Went(s, s', {}, {}, root) && Grew(s'.raids, m', next, next', root, env)
    ensures Later(s.raids, m')
  {
    hide Stretch, WellFormed, Replanned, Later;
    WentFacts(s, s', {}, {}, root);
    EffectKeepsTree(s.raids, s'.raids, {}, {});
    EffectLater(s.raids, s'.raids, {}, {});
    WellFormedSameTree(s.raids, s'.raids, next);
    EffectRoots(s.raids, s'.raids, {}, {});
    GrewLater(s'.raids, m', next, next', root, env);
    LaterOn(s.raids, s'.raids, m');
  }

  lemma EffectRoots(m: Raids, m': Raids, marks: set<RaidId>, own: set<RaidId>)
    requires Effect(m, m', marks, own) && PlansAtRoots(m)
    ensures PlansAtRoots(m')
  {
    hide Stretch;
    EffectKeepsTree(m, m', marks, own);
    forall x | x in m
      ensures m'[x].planning.Some? == m[x].planning.Some?
    {
      StretchPlans(m[x], m'[x], x in own);
    }
  }

  lemma StretchPlans(r: Raid, r': Raid, own: bool)
    requires Stretch(r, r', own)
    ensures r'.planning.Some? == r.planning.Some?
  {
    hide FinalizeRecord, DisqualifyAll;
  }

  /** What is exposed when a block begins guards the tree. */
  lemma Rebased(s: Snapshot, top: nat, books: map<RaidId, Books>, env: Environment)
    requires Steady(s, top, {}, books, env)
    ensures Steady(s.(refused := Exposed(s.raids)), top, {}, books, env)
  {
    hide BooksOk, EnvironmentOk, WellFormed, Guarded, Exposed;
    ExposedGuards(s.raids);
    assert {} + Exposed(s.raids) == Exposed(s.raids);
  }

  lemma Unmarks(s: Snapshot, top: nat, books: map<RaidId, Books>, env: Environment, fewer: set<RaidId>)
    requires Steady(s, top, {}, books, env) && fewer <= s.finalizing
    ensures Steady(s.(finalizing := fewer), top, {}, books, env)
  {
    hide BooksOk, EnvironmentOk, WellFormed, Guarded;
  }

  /** A block of finalization as a whole. */
  lemma Afterwards(s: Snapshot, s': Snapshot, m': Raids, next: nat, next': nat, b: map<RaidId, Books>, b': map<RaidId, Books>,
                   root: RaidId, env: Environment, id: RaidId)
    requires WellFormed(s.raids, next) && PlansAtRoots(s.raids) && id in s.raids && BooksExtend(b, b')
    requires Went(s, s', {}, {}, root) && Grew(s'.raids, m', next, next', root, env)
    ensures Onward(s.raids, b, m', b') && id in m' && Survives(s.raids[id], m'[id]) && next <= next'
  {
    hide Went, Grew, Survives, Later, WellFormed, PlansAtRoots, BooksExtend;
    BlockLater(s, s', m', next, next, next', root, env);
    BlockSurvives(s, s', m', next, next, next', root, env, id);
    GrewNext(s'.raids, m', next, next', root, env);
  }

  /** If the clock stands still, the deadline has passed before a block or not within it; so no
      expiry of the block finds a raid live and marked that was not so before. */
  lemma UnhinderedAfter(s: Snapshot, s': Snapshot, m': Raids, next: nat, next': nat, root: RaidId, env: Environment, id: RaidId, now: int)
    requires Went(s, s', {}, {}, root) && Grew(s'.raids, m', next, next', root, env) && id in s.raids
    requires Reached(s.raids, id, now) ==> next' == next
    requires s'.refused == s.refused || Reached(m', id, now)
    ensures s.refused == {} && (Caught(s.raids, s.finalizing) == {} || !Reached(s.raids, id, now)) ==>
              s'.refused == {} && (Caught(m', s'.finalizing) == {} || !Reached(m', id, now))
  {
    hide Went, Grew, Reached, Caught;
    GrewReached(s, s', m', {}, next, next', root, env, id);
    WentFacts(s, s', {}, {}, root);
    CaughtStays(s, s', {}, {}, root);
    RefusedCaught(s, s', {}, {}, root);
    if next' == next {
      GrewSame(s'.raids, m', next, root, env);
    }
  }

  lemma RefusedCaught(s: Snapshot, s': Snapshot, marks: set<RaidId>, own: set<RaidId>, root: RaidId)
    requires Moved(s, s', marks, own, root)
    ensures Caught(s.raids, s.finalizing) == {} ==> s'.refused == s.refused
  {
    hide Effect, Elsewhere, Newly, Caught;
  }

  lemma LeftMarked(s: Snapshot, s': Snapshot, root: RaidId, id: RaidId)
    requires RanOut(s, s', {}, {}, root) && Track(s', {}) && Seen(s', id)
    ensures Live(s'.raids, id) ==> id in s.finalizing
  {
    hide Effect, Elsewhere;
  }

  // ----- a plan that allows a revision is revised

  ghost predicate RevisedIf(m: Raids, finalizing: set<RaidId>, m': Raids, finalizing': set<RaidId>, next: nat, next': nat,
                            id: RaidId, env: Environment) {
    id in m && (CanReplan(m, id, env, false) ==>
                  finalizing' == finalizing && exists ch :: Replanned(m, m', next, next', id, env, ch))
  }

  /** After a refresh `id` is revised if its plan allows it, and then nothing else happens. */
  ghost predicate Revising(m: Raids, finalizing: set<RaidId>, m': Raids, finalizing': set<RaidId>, next: nat, next': nat,
                           id: RaidId, env: Environment) {
    exists m1 :: Refreshing(m, m1) && RevisedIf(m1, finalizing, m', finalizing', next, next', id, env)
  }

  lemma RevisedNow(m: Raids, m1: Raids, finalizing: set<RaidId>, m': Raids, next: nat, next': nat, id: RaidId, env: Environment, ch: Change)
    requires Refreshing(m, m1) && id in m1 && Replanned(m1, m', next, next', id, env, ch)
    ensures Revising(m, finalizing, m', finalizing, next, next', id, env)
  {
    hide Refreshing, Replanned, CanReplan;
    assert RevisedIf(m1, finalizing, m', finalizing, next, next', id, env);
  }

  lemma NotRevised(m: Raids, m1: Raids, finalizing: set<RaidId>, m': Raids, finalizing': set<RaidId>, next: nat, next': nat,
                   id: RaidId, env: Environment)
    requires Refreshing(m, m1) && id in m1 && !CanReplan(m1, id, env, false)
    ensures Revising(m, finalizing, m', finalizing', next, next', id, env)
  {
    hide Refreshing, Replanned, CanReplan;
    assert RevisedIf(m1, finalizing, m', finalizing', next, next', id, env);
  }

  lemma RevisingOn(m: Raids, m0: Raids, finalizing: set<RaidId>, m': Raids, finalizing': set<RaidId>, next: nat, next': nat,
                   id: RaidId, env: Environment)
    requires Refreshing(m, m0) && Revising(m0, finalizing, m', finalizing', next, next', id, env)
    ensures Revising(m, finalizing, m', finalizing', next, next', id, env)
  {
    hide Refreshing, RevisedIf;
    var m1 :| Refreshing(m0, m1) && RevisedIf(m1, finalizing, m', finalizing', next, next', id, env);
    RefreshingOn(m, m0, m1);
  }

  lemma PlanAllows(m: Raids, id: RaidId, env: Environment)
    requires id in m
    ensures CanReplan(m, id, env, false) ==> m[id].planning.Some?
  {
  }

  lemma RootsPlan(m: Raids, id: RaidId)
    requires id in m
    ensures PlansAtRoots(m) && m[id].parent.Some? ==> m[id].planning.None?
  {
  }

  /** A pool that was drained is that of a plan. */
  lemma DrainedPlan(m: Raids, m': Raids, id: RaidId, env: Environment)
    requires id in m
    ensures (exists gone: nat :: PoolDrained(m, m', id, env, gone)) ==> m[id].planning.Some?
  {
  }

  /** The same for the parent `p` of a raid that is finalized first. */
  ghost predicate ParentRevising(m: Raids, finalizing: set<RaidId>, m': Raids, finalizing': set<RaidId>, next: nat, next': nat,
                                 id: RaidId, p: RaidId, env: Environment) {
    exists m0 :: Refreshing(m, m0) && id in m0
                 && Revising(m0[id := FinalizeRecord(m0[id])], finalizing + {id}, m', finalizing', next, next', p, env)
  }

  lemma ParentRevised(m: Raids, m0: Raids, finalizing: set<RaidId>, m': Raids, finalizing': set<RaidId>, next: nat, next': nat,
                      id: RaidId, p: RaidId, env: Environment)
    requires Refreshing(m, m0) && id in m0
    requires Revising(m0[id := FinalizeRecord(m0[id])], finalizing + {id}, m', finalizing', next, next', p, env)
    ensures ParentRevising(m, finalizing, m', finalizing', next, next', id, p, env)
  {
    hide Refreshing, Revising;
  }

  lemma ParentRevisingOn(m: Raids, m0: Raids, finalizing: set<RaidId>, m': Raids, finalizing': set<RaidId>, next: nat, next': nat,
                         id: RaidId, p: RaidId, env: Environment)
    requires Refreshing(m, m0) && ParentRevising(m0, finalizing, m', finalizing', next, next', id, p, env)
    ensures ParentRevising(m, finalizing, m', finalizing', next, next', id, p, env)
  {
    hide Refreshing, Revising;
    var m1 :| Refreshing(m0, m1) && id in m1
              && Revising(m1[id := FinalizeRecord(m1[id])], finalizing + {id}, m', finalizing', next, next', p, env);
    RefreshingOn(m, m0, m1);
  }

  // ----- updates of one raid that keep it live or leave its status alone

  predicate Touched(r: Raid, r': Raid) {
    && r'.parent == r.parent && r'.children == r.children && r'.deadline == r.deadline && r'.planning == r.planning
    && r'.reserves == r.reserves && (r.reserves == [] ==> r'.selected == r.selected)
    && (Terminal(r.status) ==> r'.status == r.status) && (!Terminal(r.status) ==> !Terminal(r'.status))
  }

  lemma TouchSound(s: Snapshot, top: nat, books: map<RaidId, Books>, env: Environment, id: RaidId, r: Raid)
    requires Steady(s, top, {}, books, env) && id in s.raids && Touched(s.raids[id], r)
    ensures var m' := s.raids[id := r];
            && Steady(s.(raids := m'), top, {}, books, env) && Later(s.raids, m') && (forall x :: Live(m', x) <==> Live(s.raids, x))
            && RootOf(m', id) == RootOf(s.raids, id)
            && Exposed(m') == Exposed(s.raids) && (RootMarks(s.raids, s.finalizing) ==> RootMarks(m', s.finalizing))
  {
    var m, m' := s.raids, s.raids[id := r];
    TouchLater(m, id, r);
    TouchMarks(m, id, r, s.finalizing);
    RootOfSame(m, m', id);
    UpdateKeepsPlans(m, id, r);
    BooksKept(m, m', top, books, env);
    hide BooksOk, EnvironmentOk, NodeOk, WellFormed, Guarded, Later, Exposed, MarksOk, Live;
    UpdateKeepsTree(m, top, id, r);
    GuardedStays(m, m', {} + s.refused);
    RootsKept(m, m');
  }

  lemma TouchLater(m: Raids, id: RaidId, r: Raid)
    requires id in m && Touched(m[id], r)
    ensures Later(m, m[id := r])
  {
    hide NewBelow;
  }

  lemma TouchMarks(m: Raids, id: RaidId, r: Raid, finalizing: set<RaidId>)
    requires id in m && Touched(m[id], r)
    ensures var m' := m[id := r];
            && (MarksOk(m, finalizing) ==> MarksOk(m', finalizing)) && (RootMarks(m, finalizing) ==> RootMarks(m', finalizing))
            && (forall x :: Live(m', x) <==> Live(m, x))
            && Exposed(m') == Exposed(m)
  {
    var m' := m[id := r];
    assert forall x :: Live(m', x) <==> Live(m, x);
    forall x
      ensures x in Exposed(m') <==> x in Exposed(m)
    {
    }
  }

  // ----- what a block leaves of one raid

  /** Its submissions and settled assignments survive. */
  ghost predicate Survives(r: Raid, r': Raid) {
    && r'.selected == r.selected && r'.reserves == r.reserves
    && (forall p :: p in r.assignments ==>
          p in r'.assignments && (Settled(r.assignments[p].status) ==> r'.assignments[p] == r.assignments[p]))
    && (r.children == [] ==>
          && Unranked(r'.ranked) == Unranked(r.ranked)
          && (Terminal(r.status) ==> r'.status == r.status) && (!Terminal(r'.status) ==> r' == r))
  }

  /** The same when further reserves were promoted. */
  ghost predicate Carried(r: Raid, r': Raid) {
    && r.selected <= r'.selected && r'.reserves == r.reserves
    && (forall p :: p in r.assignments ==>
          p in r'.assignments && (Settled(r.assignments[p].status) ==> r'.assignments[p] == r.assignments[p]))
    && (r.children == [] ==> r'.children == [] && Unranked(r'.ranked) == Unranked(r.ranked))
  }

  /** Reserves joined: the first of the queue, in order; all of them but the last have no runtime and
      have failed. */
  predicate Promoted(r: Raid, r': Raid, runtimes: set<ProviderId>) {
    && Joined(r, r')
    && forall i :: |r.selected| <= i < |r'.selected| - 1 ==>
         && r'.selected[i] !in runtimes && r'.selected[i] in r'.assignments && r'.assignments[r'.selected[i]].status == Failed
  }

  lemma PromotedNobody(r: Raid, r': Raid, runtimes: set<ProviderId>)
    requires Survives(r, r')
    ensures Promoted(r, r', runtimes) && r'.selected == r.selected
  {
    hide Unranked, Queue;
  }

  /** The next reserve, and those that join after it. */
  lemma PromotedNext(r: Raid, r1: Raid, r2: Raid, runtimes: set<ProviderId>)
    requires r1.selected == r.selected && r1.reserves == r.reserves
    requires var m := PromoteReserve(r1);
             && Promoted(m, r2, runtimes)
             && (NextReserve(r1.reserves, r1.selected).None? ==> r2.selected == m.selected)
             && (|r2.selected| > |m.selected| ==>
                   var q := NextReserve(r1.reserves, r1.selected);
                   q.Some? && q.value !in runtimes && q.value in r2.assignments && r2.assignments[q.value].status == Failed)
    ensures Promoted(r, r2, runtimes) && (Queue(r.reserves, r.selected) != [] ==> |r2.selected| > |r.selected|)
  {
    hide Queue, NextReserve;
    NextOfQueue(r.reserves, r.selected);
    NobodyJoined(r);
    var m := PromoteReserve(r1);
    if NextReserve(r.reserves, r.selected).Some? {
      var q := Queue(r.reserves, r.selected);
      assert q[..1] == [q[0]];
      assert m.selected == r.selected + [q[0]];
      assert Joined(r, m);
      JoinedOn(r, m, r2);
    }
  }

  lemma PromotedFrom(r: Raid, r1: Raid, r2: Raid, runtimes: set<ProviderId>)
    requires r1.selected == r.selected && r1.reserves == r.reserves && Promoted(r1, r2, runtimes)
    ensures Promoted(r, r2, runtimes) && Queue(r1.reserves, r1.selected) == Queue(r.reserves, r.selected)
  {
  }

  /** What a submission left, once the raid was looked at: its assignment is settled, and as long as
      the raid is live nothing else happened to it. */
  ghost predicate SubmissionTaken(r: Raid, r': Raid, e: Entry) {
    && e.provider in r'.assignments && r'.assignments[e.provider].status == (if e.valid then Submitted else Invalid)
    && (r.children == [] && !Terminal(r'.status) ==>
          && r'.firstValid == (if r.firstValid.None? && e.valid then Some(e.provider) else r.firstValid)
          && r'.status == (if r.firstValid.None? && e.valid then FirstValid else r.status)
          && Ordered(r'.ranked) && r'.assignments.Keys == r.assignments.Keys
          && forall p :: p in r.assignments && p != e.provider ==> r'.assignments[p] == r.assignments[p])
  }

  lemma TakenIs(r: Raid, r': Raid, e: Entry)
    requires e.provider in r.assignments && !Terminal(r.status) && Survives(ApplySubmission(r, e), r')
    ensures SubmissionTaken(r, r', e)
  {
    SubmissionTouches(r, e);
    hide ApplySubmission, Unranked, Ordered, Touched;
    SameChildren(r, e);
  }

  lemma SameChildren(r: Raid, e: Entry)
    requires e.provider in r.assignments
    ensures ApplySubmission(r, e).children == r.children
  {
    hide Rank;
  }

  /** Later changes of the raid that keep who is selected and who has settled. */
  lemma PromotedStays(r: Raid, r1: Raid, r2: Raid, runtimes: set<ProviderId>)
    requires Promoted(r, r1, runtimes) && Survives(r1, r2)
    ensures Promoted(r, r2, runtimes) && r2.selected == r1.selected
  {
    hide Unranked, Queue;
  }

  lemma CarriedOn(r: Raid, r1: Raid, r2: Raid)
    requires Carried(r, r1) && Carried(r1, r2)
    ensures Carried(r, r2)
  {
    hide Unranked;
  }

  lemma SurvivesCarried(r: Raid, r': Raid)
    requires Survives(r, r') && (r.children == [] ==> r'.children == [])
    ensures Carried(r, r')
  {
    hide Unranked;
  }

  lemma ThenCarried(r: Raid, r1: Raid, r2: Raid)
    requires Survives(PromoteReserve(r), PromoteReserve(r1)) && Carried(PromoteReserve(r1), r2) && (r.children == [] ==> r1.children == [])
    ensures Carried(PromoteReserve(r), PromoteReserve(r1)) && Carried(PromoteReserve(r), r2)
  {
    hide Unranked, NextReserve;
  }

  lemma SurvivesAfter(r: Raid, r1: Raid, r2: Raid)
    requires Survives(r, r1) && Carried(r, r1) && Survives(r1, r2)
    ensures Survives(r, r2)
  {
    hide Unranked;
  }

  lemma SettledThen(r: Raid, r1: Raid, r2: Raid, r3: Raid, p: ProviderId, status: AssignmentStatus)
    requires Unsettled(r, p) && (status == TimedOut || status == Failed) && r1 == SetStatus(r, p, status) && Survives(r1, r2)
    requires Carried(PromoteReserve(r2), r3)
    ensures r2.selected == r.selected && r2.reserves == r.reserves
    ensures p in r3.assignments && r3.assignments[p].status == status && Settled(r3.assignments[p].status)
  {
    hide Unranked, NextReserve;
  }

  lemma StaysSettled(r: Raid, r': Raid, p: ProviderId)
    requires Survives(r, r') && p in r.assignments && Settled(r.assignments[p].status)
    ensures p in r'.assignments && r'.assignments[p] == r.assignments[p]
  {
    hide Unranked;
  }

  lemma FailedCarried(r: Raid, p: ProviderId)
    requires Unsettled(r, p)
    ensures Carried(r, PromoteReserve(SetStatus(r, p, Failed)))
  {
    hide Unranked;
  }

  /** The reserves still to be promoted. */
  function Waiting(m: Raids, id: RaidId): set<ProviderId> {
    if id in m then set p | p in m[id].reserves && p !in m[id].selected else {}
  }

  /** With each promotion fewer are waiting. */
  lemma PromotesOne(m: Raids, id: RaidId)
    requires id in m
    ensures NextReserve(m[id].reserves, m[id].selected).Some? ==>
              |Waiting(m[id := PromoteReserve(m[id])], id)| < |Waiting(m, id)|
  {
    var next := NextReserve(m[id].reserves, m[id].selected);
    if next.Some? {
      assert next.value in Waiting(m, id);
      SubsetSize(Waiting(m[id := PromoteReserve(m[id])], id), Waiting(m, id));
    }
  }

  /** Settling an assignment, and what the parent does then, promotes nobody. */
  lemma SameWaiting(m: Raids, m1: Raids, m2: Raids, id: RaidId, p: ProviderId, status: AssignmentStatus)
    requires id in m && Unsettled(m[id], p) && m1 == m[id := SetStatus(m[id], p, status)]
    requires id in m2 && Survives(m1[id], m2[id])
    ensures Waiting(m2, id) == Waiting(m, id) && m2[id].reserves == m1[id].reserves && m2[id].selected == m1[id].selected
    ensures m1[id].reserves == m[id].reserves && m1[id].selected == m[id].selected
  {
    hide Unranked;
  }

  lemma SurvivesOn(r: Raid, r1: Raid, r2: Raid)
    requires Survives(r, r1) && Survives(r1, r2) && (r.children == [] ==> r1.children == [])
    ensures Survives(r, r2)
  {
    hide Unranked;
  }

  lemma StretchSurvives(r: Raid, r': Raid, own: bool)
    requires Stretch(r, r', own)
    ensures Survives(r, r')
  {
    hide DisqualifySelected, Unranked, Rank, PlanDrains;
    DisqualifySelectedSettles(r, |r.selected|);
    RankIsSortedPermutation(r.ranked);
  }

  lemma RevisionSurvives(m: Raids, m': Raids, next: nat, next': nat, id: RaidId, env: Environment, ch: Change, x: RaidId)
    requires WellFormed(m, next) && Replanned(m, m', next, next', id, env, ch) && x in m
    ensures x in m' && Survives(m[x], m'[x])
  {
    hide Revises, Added, Below, NextPlanning, KnownOf, Targeted, Unranked, WellFormed;
    assert m'[x] == AfterRevision(m, next, id, ch, x);
    if m[x].children == [] {
      TargetHasChildren(m, env, id, ch.target);
      if Below(m, x, ch.target.parent) {
        HasDescendant(m, next, x, ch.target.parent);
      }
    }
  }

  lemma BlockSurvives(s: Snapshot, s': Snapshot, m': Raids, top: nat, next: nat, next': nat, root: RaidId, env: Environment, x: RaidId)
    requires WellFormed(s.raids, top) && top == next
    requires Went(s, s', {}, {}, root) && Grew(s'.raids, m', next, next', root, env) && x in s.raids
    ensures x in m' && Survives(s.raids[x], m'[x])
  {
    hide Stretch, Survives, Replanned, WellFormed;
    assert Stretch(s.raids[x], s'.raids[x], false);
    StretchSurvives(s.raids[x], s'.raids[x], false);
    EffectKeepsTree(s.raids, s'.raids, {}, {});
    if next' != next {
      var r, ch :| RootOf(s'.raids, r) == root && Replanned(s'.raids, m', next, next', r, env, ch);
      WellFormedSameTree(s.raids, s'.raids, top);
      RevisionSurvives(s'.raids, m', next, next', r, env, ch, x);
      SurvivesOn(s.raids[x], s'.raids[x], m'[x]);
    }
  }

  lemma SurvivesItself(r: Raid)
    ensures Survives(r, r)
  {
  }

  // ----- steps on one raid

  lemma SettleTouches(r: Raid, p: ProviderId, status: AssignmentStatus)
    requires Unsettled(r, p)
    ensures Touched(r, SetStatus(r, p, status))
  {
  }

  lemma PromoteTouches(r: Raid)
    ensures Touched(r, PromoteReserve(r))
  {
  }

  /** A terminal raid may be touched without anything becoming ready. */
  lemma TouchReady(m: Raids, finalizing: set<RaidId>, id: RaidId, r: Raid)
    requires id in m && Touched(m[id], r)
    ensures !Live(m, id) && NoneReady(m, finalizing, id) ==> NoneReady(m[id := r], finalizing, id)
  {
    hide ShouldFinalize;
    if !Live(m, id) && NoneReady(m, finalizing, id) {
      forall x | x in m[id := r] && Below(m[id := r], x, id) && Live(m[id := r], x) && x !in finalizing
        ensures !Ready(m[id := r], x)
      {
        BelowDepends(m, m[id := r], x, id);
        assert !Ready(m, x);
        if m[x].children != [] {
          var k: nat :| k < |m[x].children| && !(m[x].children[k] in m && Terminal(m[m[x].children[k]].status));
          assert !(m[x].children[k] in m[id := r] && Terminal(m[id := r][m[x].children[k]].status));
        }
      }
    }
  }

  lemma TouchDeadline(m: Raids, finalizing: set<RaidId>, id: RaidId, r: Raid)
    requires id in m && Touched(m[id], r)
    ensures (forall t :: Reached(m[id := r], id, t) <==> Reached(m, id, t)) && Caught(m[id := r], finalizing) == Caught(m, finalizing)
  {
  }

  lemma SubmissionTouches(r: Raid, e: Entry)
    requires e.provider in r.assignments && !Terminal(r.status)
    ensures Touched(r, ApplySubmission(r, e))
    ensures Unranked(ApplySubmission(r, e).ranked) == Unranked(r.ranked) + multiset{e.(rank := 0)}
    ensures ApplySubmission(r, e).assignments[e.provider].status == if e.valid then Submitted else Invalid
    ensures ApplySubmission(r, e).firstValid == if r.firstValid.None? && e.valid then Some(e.provider) else r.firstValid
    ensures ApplySubmission(r, e).status == if r.firstValid.None? && e.valid then FirstValid else r.status
    ensures ApplySubmission(r, e).assignments.Keys == r.assignments.Keys
    ensures forall p :: p in r.assignments && p != e.provider ==> ApplySubmission(r, e).assignments[p] == r.assignments[p]
    ensures Ordered(ApplySubmission(r, e).ranked) && e.provider in ApplySubmission(r, e).assignments
    ensures Settled(ApplySubmission(r, e).assignments[e.provider].status)
  {
    hide Rank, Unranked;
    var placed := e.(rank := |r.ranked| + 1);
    RankIsSortedPermutation(r.ranked + [placed]);
    UnrankedAppend(r.ranked, [placed]);
    UnrankedOne(placed);
  }

  lemma UnrankedOne(e: Entry)
    ensures Unranked([e]) == multiset{e.(rank := 0)}
  {
    assert [e][..0] == [];
  }

  /** A submission takes a raid out of a terminal status exactly when it is its first valid
      one: the check before the evaluation is needed. */
  lemma SubmissionRevives(r: Raid, e: Entry)
    requires e.provider in r.assignments && Terminal(r.status)
    ensures !Terminal(ApplySubmission(r, e).status) <==> r.firstValid.None? && e.valid
  {
  }

  /** `dispatchProvider` after its pause. */
  function Invite(r: Raid, p: ProviderId): Raid
    requires p in r.assignments
  {
    SetStatus(r, p, Invited).(status := Running)
  }

  /** Going on with a dispatch takes every terminal raid out of its status, and every settled
      assignment: the checks before the pause are needed. */
  lemma InviteRevives(r: Raid, p: ProviderId)
    requires p in r.assignments
    ensures Touched(r, Invite(r, p)) <==> !Terminal(r.status)
    ensures Unsettled(Invite(r, p), p)
  {
  }

  /** The heartbeat is of a live assignment and not of another run. */
  predicate HeartbeatTaken(r: Raid, p: ProviderId, runId: Option<string>) {
    Unsettled(r, p) && !(runId.Some? && r.assignments[p].runId.Some? && runId != r.assignments[p].runId)
  }

  lemma HeartbeatIs(r: Raid, p: ProviderId, runId: Option<string>)
    ensures HeartbeatTaken(r, p, runId) ==> p in r.assignments && ApplyHeartbeat(r, p, runId) == SetStatus(r, p, Working)
    ensures !HeartbeatTaken(r, p, runId) ==> ApplyHeartbeat(r, p, runId) == r
  {
  }

  lemma HeartbeatTouches(r: Raid, p: ProviderId, runId: Option<string>)
    ensures Touched(r, ApplyHeartbeat(r, p, runId))
    ensures forall q :: q in r.assignments && Settled(r.assignments[q].status) ==> ApplyHeartbeat(r, p, runId).assignments[q] == r.assignments[q]
  {
  }

  // ----- the deadline

  function LiveOf(m: Raids, root: RaidId): set<RaidId> {
    set x | x in m && Live(m, x) && RootOf(m, x) == root
  }

  /** A raid ended: its submissions are ranked, and a best valid one is primary. */
  ghost predicate EndsFinal(r: Raid, r': Raid) {
    && r'.status == Final && PrimaryIsBest(r') && Unranked(r'.ranked) == Unranked(r.ranked)
    && r'.selected == r.selected && r'.reserves == r.reserves
  }

  /** At the deadline, with everybody selected who had not settled disqualified. */
  ghost predicate Concluded(r: Raid, r': Raid) {
    && EndsFinal(r, r') && r'.assignments.Keys == r.assignments.Keys
    && forall p :: p in r.assignments ==>
         r'.assignments[p] == if p in r.selected && Unsettled(r, p) then r.assignments[p].(status := Disqualified) else r.assignments[p]
  }

  lemma FinalIs(r: Raid)
    ensures EndsFinal(r, FinalizeRecord(r)) && FinalizeRecord(r).assignments == r.assignments
  {
    FinalRecordIs(r);
    hide PrimaryIsBest, FinalizeRecord, Unranked;
  }

  lemma ConcludedIs(r: Raid)
    ensures Concluded(r, FinalizeRecord(DisqualifyAll(r)))
  {
    hide DisqualifySelected, EndsFinal, FinalizeRecord;
    DisqualifySelectedSettles(r, |r.selected|);
    assert r.selected[..|r.selected|] == r.selected;
    FinalIs(DisqualifyAll(r));
    EndsFinalOf(r, DisqualifyAll(r), FinalizeRecord(DisqualifyAll(r)));
  }

  lemma EndsFinalOf(r: Raid, r1: Raid, r': Raid)
    requires EndsFinal(r1, r') && r1.ranked == r.ranked && r1.selected == r.selected && r1.reserves == r.reserves
    ensures EndsFinal(r, r')
  {
    hide PrimaryIsBest, Unranked;
  }

  /** A revision leaves leaf raids alone. */
  lemma RevisionOfLeaf(m: Raids, m': Raids, next: nat, next': nat, id: RaidId, env: Environment, ch: Change, x: RaidId)
    requires WellFormed(m, next) && Replanned(m, m', next, next', id, env, ch) && x in m && m[x].children == []
    ensures x in m' && m'[x] == m[x]
  {
    hide Revises, Added, Below, NextPlanning, KnownOf, Targeted, WellFormed;
    assert m'[x] == AfterRevision(m, next, id, ch, x);
    TargetHasChildren(m, env, id, ch.target);
    if Below(m, x, ch.target.parent) {
      HasDescendant(m, next, x, ch.target.parent);
    }
  }

  /** A leaf raid that was finalized has ended as it should. */
  lemma LeafFinalized(s: Snapshot, s': Snapshot, m': Raids, top: nat, next': nat, marks: set<RaidId>, root: RaidId, env: Environment, id: RaidId)
    requires WellFormed(s.raids, top) && id in s.raids && s.raids[id].children == []
    requires Went(s, s', marks, {id}, root) && id in Newly(s.raids, s'.raids) && Grew(s'.raids, m', top, next', root, env)
    ensures id in m' && EndsFinal(s.raids[id], m'[id]) && m'[id].assignments == s.raids[id].assignments
  {
    hide Replanned, WellFormed, EndsFinal, DisqualifyAll, FinalizeRecord;
    assert Stretch(s.raids[id], s'.raids[id], true);
    FinalIs(s.raids[id]);
    EffectKeepsTree(s.raids, s'.raids, marks, {id});
    if next' != top {
      var r, ch :| RootOf(s'.raids, r) == root && Replanned(s'.raids, m', top, next', r, env, ch);
      WellFormedSameTree(s.raids, s'.raids, top);
      RevisionOfLeaf(s'.raids, m', top, next', r, env, ch, id);
    }
  }

  /** A root that is made final. */
  lemma RootFinal(m: Raids, id: RaidId)
    requires id in m
    ensures var m' := m[id := FinalizeRecord(m[id])]; m'[id].status == Final && PrimaryIsBest(m'[id])
  {
    FinalRecordIs(m[id]);
    hide PrimaryIsBest, FinalizeRecord, Unranked;
  }

  /** What the deadline does to the leaves among some live raids. */
  ghost predicate ExpiredLeaves(m: Raids, m': Raids, linked: set<RaidId>) {
    forall x :: x in linked && x in m && m[x].children == [] ==>
      x in m' && m'[x] == FinalizeRecord(DisqualifyAll(m[x])) && Concluded(m[x], m'[x])
  }

  /** An expiry visited exactly the linked raids; of them those that are marked stay live. */
  lemma LinkedVisited(s: Snapshot, s': Snapshot, top: nat, id: RaidId, root: RaidId)
    requires WellFormed(s.raids, top) && Live(s.raids, id)
    requires RanOut(s, s', {}, {}, root) && Track(s', {}) && Seen(s', id)
    requires Within(s'.raids, s'.visited, s.raids, TopOf(s.raids, id))
    ensures s'.visited == Linked(s.raids, id) && SameTree(s.raids, s'.raids)
    ensures forall x :: Live(s'.raids, x) <==> Live(s.raids, x) && (x !in Linked(s.raids, id) || x in s.finalizing)
    ensures forall x :: x in Linked(s.raids, id) && Live(s'.raids, x) ==> x in s'.refused
  {
    hide Stretch, WellFormed, Elsewhere, Caught, TopOf;
    EffectKeepsTree(s.raids, s'.raids, {}, {});
    EffectShrinksLive(s.raids, s'.raids, {}, {});
    AllLinkedVisited(s.raids, s'.raids, top, s'.visited, id);
  }

  /** When nobody was refused, and no live raid is below a terminal one, all of the tree is terminal. */
  lemma ExpiryDead(s: Snapshot, s': Snapshot, top: nat, id: RaidId, root: RaidId)
    requires WellFormed(s.raids, top) && Guarded(s.raids, {}) && Live(s.raids, id) && RootOf(s.raids, id) == root
    requires RanOut(s, s', {}, {}, root) && Track(s', {}) && Seen(s', id) && s'.refused == {}
    requires Within(s'.raids, s'.visited, s.raids, TopOf(s.raids, id))
    ensures TreeDead(s'.raids, root) && Newly(s.raids, s'.raids) != {}
  {
    LinkedVisited(s, s', top, id, root);
    LinkedTree(s.raids, top, id);
    hide RanOut, Track, WellFormed, Guarded, TopOf, Within, Linked;
    RootOfSame(s.raids, s'.raids, id);
    LinkedIn(s.raids, id);
    assert id in Newly(s.raids, s'.raids);
    TreeDied(s.raids, s'.raids, root);
  }

  lemma LinkedIn(m: Raids, id: RaidId)
    requires Live(m, id)
    ensures id in Linked(m, id) && forall x :: x in Linked(m, id) ==> Live(m, x)
  {
    hide TopOf;
  }

  /** Without live raids below terminal ones all live raids of a tree are linked. */
  lemma LinkedTree(m: Raids, top: nat, id: RaidId)
    requires WellFormed(m, top) && Live(m, id)
    ensures Linked(m, id) <= LiveOf(m, RootOf(m, id))
    ensures Guarded(m, {}) ==> Linked(m, id) == LiveOf(m, RootOf(m, id))
    ensures Exposed(m) == {} ==> Guarded(m, {})
  {
    hide WellFormed, Guarded, TopOf, RootOf, Exposed;
    ExposedGuards(m);
    TopIsLive(m, id);
    forall x | x in m && Live(m, x)
      ensures RootOf(m, TopOf(m, x)) == RootOf(m, x) && (Guarded(m, {}) ==> TopOf(m, x) == RootOf(m, x))
    {
      TopIsLive(m, x);
      if Guarded(m, {}) {
        TopIsRoot(m, top, x);
      }
    }
    if Guarded(m, {}) {
      TopIsRoot(m, top, id);
    }
  }

  /** The deadline: of the linked raids those that are live afterwards are the marked ones. */
  lemma DeadlineDone(s: Snapshot, s': Snapshot, top: nat, id: RaidId, root: RaidId)
    requires WellFormed(s.raids, top) && MarksOk(s.raids, s.finalizing)
    requires Live(s.raids, id) && RootOf(s.raids, id) == root
    requires RanOut(s, s', {}, {}, root) && Track(s', {}) && Seen(s', id)
    requires Within(s'.raids, s'.visited, s.raids, TopOf(s.raids, id))
    ensures var linked, marked := Linked(s.raids, id), s.finalizing;
            && (forall x :: Live(s'.raids, x) <==> Live(s.raids, x) && (x !in linked || x in marked))
            && (TreeDead(s'.raids, root) <==> LiveOf(s.raids, root) <= linked - marked)
            && (Exposed(s'.raids) == {} <==> linked !! marked && Exposed(s.raids) <= {TopOf(s.raids, id)})
            && (forall x :: x in linked - marked ==> s'.passes[x] == s.passes[x] + 1)
            && (forall x :: x !in linked ==> s'.passes[x] == s.passes[x])
            && ExpiredLeaves(s.raids, s'.raids, linked)
  {
    hide WellFormed, RanOut, Track, FinalizeRecord, DisqualifyAll, Terminal, Within, TopOf, Linked, MarksOk, Exposed, ExpiredLeaves,
         TreeDead, LiveOf, SameTree, Seen, Live;
    LinkedVisited(s, s', top, id, root);
    PassedOnce(s, s', root, id);
    LeavesExpired(s, s', root, id);
    DeadIff(s.raids, s'.raids, root, Linked(s.raids, id), s.finalizing);
    ExposedIff(s.raids, s'.raids, top, id, s.finalizing);
  }

  /** Who is live after an expiry. */
  ghost predicate Left(m: Raids, m': Raids, linked: set<RaidId>, marked: set<RaidId>) {
    SameTree(m, m') && forall x :: Live(m', x) <==> Live(m, x) && (x !in linked || x in marked)
  }

  lemma DeadIff(m: Raids, m': Raids, root: RaidId, linked: set<RaidId>, marked: set<RaidId>)
    requires Left(m, m', linked, marked)
    ensures TreeDead(m', root) <==> LiveOf(m, root) <= linked - marked
  {
    forall x | x in m
      ensures RootOf(m', x) == RootOf(m, x)
    {
      RootOfSame(m, m', x);
    }
    hide RootOf;
    if TreeDead(m', root) {
      forall x | x in LiveOf(m, root)
        ensures x in linked - marked
      {
        assert x in m' && RootOf(m', x) == root;
      }
    }
    if LiveOf(m, root) <= linked - marked {
      forall x | x in m' && RootOf(m', x) == root
        ensures !Live(m', x)
      {
        assert Live(m', x) ==> x in LiveOf(m, root);
      }
    }
  }

  /** A raid with a live parent is linked with it. */
  lemma LinkedParent(m: Raids, top: nat, x: RaidId)
    requires WellFormed(m, top) && Live(m, x)
    ensures m[x].parent.Some? && Live(m, m[x].parent.value) ==> TopOf(m, x) == TopOf(m, m[x].parent.value)
    ensures TopOf(m, x) == x <==> !(m[x].parent.Some? && Live(m, m[x].parent.value))
    ensures x in Exposed(m) <==> m[x].parent.Some? && !Live(m, m[x].parent.value)
  {
    assert NodeOk(m, top, x);
    if m[x].parent.Some? && Live(m, m[x].parent.value) {
      TopIsOlder(m, m[x].parent.value);
    }
  }

  lemma {:induction false} TopIsOlder(m: Raids, x: RaidId)
    ensures TopOf(m, x) <= x
    decreases x
  {
    if x in m && m[x].parent.Some? && m[x].parent.value < x && Live(m, m[x].parent.value) {
      TopIsOlder(m, m[x].parent.value);
    }
  }

  /** Exposed are the live raids with a parent that is not live. */
  lemma ExposedAre(m: Raids, top: nat)
    requires WellFormed(m, top)
    ensures forall x :: Live(m, x) ==> x in m && (x in Exposed(m) <==> m[x].parent.Some? && !Live(m, m[x].parent.value))
    ensures forall x :: x in Exposed(m) ==> Live(m, x)
  {
    hide WellFormed, TopOf;
    forall x | Live(m, x)
      ensures x in Exposed(m) <==> m[x].parent.Some? && !Live(m, m[x].parent.value)
    {
      LinkedParent(m, top, x);
    }
  }

  /** A live raid is linked like its live parent; the top is the only linked raid without one. */
  lemma LinkedAre(m: Raids, top: nat, id: RaidId)
    requires WellFormed(m, top) && Live(m, id)
    ensures TopOf(m, id) in Linked(m, id)
    ensures forall x :: Live(m, x) && m[x].parent.Some? && Live(m, m[x].parent.value) ==>
              (x in Linked(m, id) <==> m[x].parent.value in Linked(m, id))
    ensures forall x :: x in Linked(m, id) && x in Exposed(m) ==> x == TopOf(m, id)
  {
    hide WellFormed, TopOf;
    TopIsLive(m, id);
    forall x | Live(m, x)
      ensures m[x].parent.Some? && Live(m, m[x].parent.value) ==> (x in Linked(m, id) <==> m[x].parent.value in Linked(m, id))
      ensures x in Linked(m, id) && x in Exposed(m) ==> x == TopOf(m, id)
    {
      LinkedParent(m, top, x);
    }
  }

  /** Someone is exposed afterwards if a linked raid was marked, or another one was exposed before. */
  lemma ExposedIff(m: Raids, m': Raids, top: nat, id: RaidId, marked: set<RaidId>)
    requires WellFormed(m, top) && MarksOk(m, marked) && Live(m, id) && Left(m, m', Linked(m, id), marked)
    ensures Exposed(m') == {} <==> Linked(m, id) !! marked && Exposed(m) <= {TopOf(m, id)}
  {
    hide TopOf, Linked, Exposed, WellFormed, MarksOk, Live;
    var linked, t := Linked(m, id), TopOf(m, id);
    LinkedAre(m, top, id);
    ExposedAre(m, top);
    WellFormedSameTree(m, m', top);
    ExposedAre(m', top);
    if x :| x in linked && x in marked {
      SomeExposed(m, m', top, id, marked, x);
    } else if x :| x in Exposed(m) && x != t {
      assert Live(m', x);
      assert x in Exposed(m');
    } else {
      forall x | Live(m', x)
        ensures x !in Exposed(m')
      {
        assert x !in linked && x !in Exposed(m);
      }
      NoneExposed(m');
    }
  }

  lemma NoneExposed(m: Raids)
    requires forall x :: Live(m, x) ==> x !in Exposed(m)
    ensures Exposed(m) == {}
  {
  }

  /** Going up from a marked raid that stayed live one comes to an exposed one. */
  lemma {:induction false} SomeExposed(m: Raids, m': Raids, top: nat, id: RaidId, marked: set<RaidId>, x: RaidId)
    requires WellFormed(m, top) && MarksOk(m, marked) && Left(m, m', Linked(m, id), marked)
    requires x in Linked(m, id) && x in marked
    ensures Exposed(m') != {}
    decreases x
  {
    hide MarksOk, TopOf;
    assert Live(m', x);
    MarkedHasParent(m, marked, x);
    LinkedParent(m, top, x);
    WellFormedSameTree(m, m', top);
    LinkedParent(m', top, x);
    var p := m[x].parent.value;
    if Live(m', p) {
      assert p in Linked(m, id) && p in marked;
      assert NodeOk(m, top, x);
      SomeExposed(m, m', top, id, marked, p);
    } else {
      assert x in Exposed(m');
    }
  }

  lemma MarkedHasParent(m: Raids, marked: set<RaidId>, x: RaidId)
    requires MarksOk(m, marked) && x in marked && Live(m, x)
    ensures x in m && m[x].parent.Some? && m[x].children != []
  {
  }

  lemma PassedOnce(s: Snapshot, s': Snapshot, root: RaidId, id: RaidId)
    requires RanOut(s, s', {}, {}, root) && s'.visited == Linked(s.raids, id)
    requires forall x :: Live(s'.raids, x) <==> Live(s.raids, x) && (x !in Linked(s.raids, id) || x in s.finalizing)
    ensures forall x :: x in Linked(s.raids, id) - s.finalizing ==> s'.passes[x] == s.passes[x] + 1
    ensures forall x :: x !in Linked(s.raids, id) ==> s'.passes[x] == s.passes[x]
  {
    hide Effect, Elsewhere, TopOf;
    forall x | x in Linked(s.raids, id) - s.finalizing
      ensures x in Newly(s.raids, s'.raids) && x !in Caught(s.raids, s.finalizing)
    {
    }
  }

  lemma TreeDied(m: Raids, m': Raids, root: RaidId)
    requires m'.Keys == m.Keys && forall x :: x in m ==> m'[x].parent == m[x].parent
    requires forall x :: x in m && RootOf(m, x) == root ==> !Live(m', x)
    ensures TreeDead(m', root)
  {
    forall x | x in m' && RootOf(m', x) == root
      ensures !Live(m', x)
    {
      RootOfSame(m, m', x);
    }
  }

  lemma LeavesExpired(s: Snapshot, s': Snapshot, root: RaidId, id: RaidId)
    requires RanOut(s, s', {}, {}, root) && MarksOk(s.raids, s.finalizing)
    requires forall x :: Live(s'.raids, x) <==> Live(s.raids, x) && (x !in Linked(s.raids, id) || x in s.finalizing)
    ensures ExpiredLeaves(s.raids, s'.raids, Linked(s.raids, id))
  {
    hide DisqualifyAll, FinalizeRecord, Elsewhere, TopOf, Concluded;
    var m, m' := s.raids, s'.raids;
    forall x | x in Linked(m, id) && m[x].children == []
      ensures x in m' && m'[x] == FinalizeRecord(DisqualifyAll(m[x])) && Concluded(m[x], m'[x])
    {
      assert Stretch(m[x], m'[x], false) && !Live(m', x);
      ConcludedIs(m[x]);
    }
  }

  // ----- cancelling

  lemma AbortSound(s: Snapshot, m': Raids, top: nat, books: map<RaidId, Books>, env: Environment, id: RaidId)
    requires Steady(s, top, {}, books, env) && id in s.raids && Cancellation.AbortedBelow(s.raids, m', id)
    ensures Steady(s.(raids := m'), top, {}, books, env) && Later(s.raids, m') && Exposed(m') <= Exposed(s.raids)
  {
    var m := s.raids;
    hide BooksOk, EnvironmentOk, WellFormed, Cancellation.AbortedBelow, Later, Live, Guarded, MarksOk, PlansAtRoots, SamePlans, SameTree, Exposed;
    AbortKeeps(m, m', id, s.finalizing);
    AbortGuarded(m, m', top, id, {} + s.refused);
    BooksKept(m, m', top, books, env);
    WellFormedSameTree(m, m', top);
  }

  lemma AbortKeeps(m: Raids, m': Raids, id: RaidId, finalizing: set<RaidId>)
    requires Cancellation.AbortedBelow(m, m', id)
    ensures SameTree(m, m') && SamePlans(m, m') && Later(m, m')
    ensures (MarksOk(m, finalizing) ==> MarksOk(m', finalizing)) && (PlansAtRoots(m) ==> PlansAtRoots(m'))
  {
    hide Cancellation.LivePath, NewBelow;
    assert forall x: RaidId :: Live(m', x) ==> Live(m, x);
    forall x | x in m
      ensures Terminal(m[x].status) ==> m'[x] == m[x]
    {
      PathLive(m, id, x);
    }
  }

  lemma AbortGuarded(m: Raids, m': Raids, top: nat, id: RaidId, exposed: set<RaidId>)
    requires WellFormed(m, top) && Cancellation.AbortedBelow(m, m', id)
    ensures Exposed(m') <= Exposed(m) && (Guarded(m, exposed) ==> Guarded(m', exposed))
  {
    hide WellFormed, Cancellation.LivePath;
    forall x: RaidId | Live(m', x) && m'[x].parent.Some? && m'[x].parent.value in m' && Terminal(m'[m'[x].parent.value].status)
      ensures Live(m, x) && m'[x].parent == m[x].parent && m[x].parent.value in m && Terminal(m[m[x].parent.value].status)
    {
      AncestorsOf(m, top, x);
      PathOn(m, id, x);
    }
  }

  lemma PathOn(m: Raids, id: RaidId, x: RaidId)
    requires x in m && m[x].parent.Some? && m[x].parent.value < x && Live(m, x)
    ensures Cancellation.LivePath(m, id, m[x].parent.value) ==> Cancellation.LivePath(m, id, x)
  {
  }

  lemma PathLive(m: Raids, id: RaidId, x: RaidId)
    ensures Cancellation.LivePath(m, id, x) ==> Live(m, x)
  {
  }

  // ----- a new tree

  lemma NewRootTree(m: Raids, top: nat, r: Raid)
    requires WellFormed(m, top) && r.parent.None? && r.children == []
    ensures top !in m && WellFormed(m[top := r], top + 1)
    ensures forall x :: x in m && m[x].parent.Some? ==> m[x].parent.value in m
  {
    var m' := m[top := r];
    forall x | x in m
      ensures x < top && NodeOk(m', top + 1, x) && (m[x].parent.Some? ==> m[x].parent.value in m)
    {
      assert NodeOk(m, top, x);
    }
  }

  lemma NewRootBooks(m: Raids, top: nat, books: map<RaidId, Books>, r: Raid, pool: seq<ProviderId>, env: Environment)
    requires BooksOk(m, top, books, env) && top !in m
    requires r.planning.Some? ==> r.planning.value == RaidState.Adaptive(pool, |pool|, 0, |pool|, [], [])
    ensures BooksOk(m[top := r], top + 1, books[top := Books(pool, [], [])], env)
  {
    hide PlanningOk;
    var m' := m[top := r];
    PlanningStarts(m', top + 1, pool, env);
    forall x | x in m && m[x].planning.Some?
      ensures PlanningOk(m', top + 1, m[x].planning.value, books[x], env)
    {
      PlanningKept(m, m', top, top + 1, m[x].planning.value, books[x], env);
    }
  }

  lemma NewRootSound(s: Snapshot, top: nat, books: map<RaidId, Books>, env: Environment, r: Raid, pool: seq<ProviderId>)
    requires Steady(s, top, {}, books, env)
    requires r.parent.None? && r.children == [] && !Terminal(r.status)
    requires r.planning.Some? ==> r.planning.value == RaidState.Adaptive(pool, |pool|, 0, |pool|, [], [])
    ensures var m' := s.raids[top := r];
            && top !in s.raids && Steady(s.(raids := m'), top + 1, {}, books[top := Books(pool, [], [])], env) && Later(s.raids, m')
            && Exposed(m') == Exposed(s.raids)
  {
    hide EnvironmentOk, BooksOk, WellFormed, NewBelow;
    NewRootTree(s.raids, top, r);
    NewRootBooks(s.raids, top, books, r, pool, env);
  }

  lemma NewBooks(s: Snapshot, top: nat, books: map<RaidId, Books>, env: Environment, pool: seq<ProviderId>)
    requires Steady(s, top, {}, books, env)
    ensures BooksExtend(books, books[top := Books(pool, [], [])])
  {
    hide EnvironmentOk, PlanningOk, Guarded;
    assert top in s.raids ==> NodeOk(s.raids, top, top);
  }

  /** What the books of a plan say after a run, about the pool it was launched with. */
  lemma {:induction false} PoolConserved(m: Raids, b: map<RaidId, Books>, m': Raids, top: nat, b': map<RaidId, Books>, env: Environment,
                                         id: RaidId, pool: seq<ProviderId>)
    requires id in m && m[id].planning == Some(RaidState.Adaptive(pool, |pool|, 0, |pool|, [], [])) && id in b
    requires b[id] == Books(pool, [], [])
    requires Onward(m, b, m', b') && BooksOk(m', top, b', env)
    ensures id in m' && m'[id].planning.Some? && id in b'
    ensures var a := m'[id].planning.value;
            var made, dropped := b'[id].made, b'[id].dropped;
            && multiset(pool) == multiset(a.available) + multiset(Granted(m', made)) + multiset(dropped)
            && MadeOk(m', top, made) && (forall p :: p in dropped ==> !Known(env, p))
            && a.revisionCount == |a.history| == |a.spawned| == |made|
            && a.revisionCount + |a.available| <= |pool| == a.plannedReserve == a.maxRevisions
            && Suffix(pool, a.available) && HistoryOk(a.history)
            && (forall p :: multiset(pool)[p] <= 1 ==> multiset(Granted(m', made))[p] + multiset(a.available)[p] <= 1)
            && (forall p :: p in pool && p !in a.available && Known(env, p) ==> p in Granted(m', made))
  {
    hide HistoryOk, MadeOk, Granted, Known, NewBelow;
    var a := m'[id].planning.value;
    assert b'[id].initial == pool;
    forall p
      ensures multiset(pool)[p] <= 1 ==> multiset(Granted(m', b'[id].made))[p] + multiset(a.available)[p] <= 1
      ensures p in pool && p !in a.available && Known(env, p) ==> p in Granted(m', b'[id].made)
    {
      if multiset(pool)[p] <= 1 {
        GrantedOnce(m', top, a, b'[id], env, p);
      }
      GrantedAll(m', top, a, b'[id], env, p);
    }
  }

  /** A step in which nobody was refused exposes nobody. */
  lemma NothingExposed(s: Snapshot, top: nat, books: map<RaidId, Books>, env: Environment)
    requires Steady(s, top, {}, books, env)
    ensures s.refused == {} ==> Exposed(s.raids) == {}
  {
    hide BooksOk, EnvironmentOk, WellFormed, Exposed, Guarded;
    ExposedGuards(s.raids);
    if s.refused == {} {
      assert {} + s.refused == {};
    }
  }

  lemma GrownSound(s: Snapshot, m': Raids, lo: nat, hi: nat, parent: RaidId, books: map<RaidId, Books>, env: Environment)
    requires Steady(s, lo, {}, books, env) && Live(s.raids, parent) && s.raids[parent].parent.None?
    requires Grown(s.raids, m', lo, hi, parent)
    ensures Steady(s.(raids := m'), hi, {}, books, env) && Exposed(m') == Exposed(s.raids)
  {
    hide EnvironmentOk, PlanningOk, WellFormed, NodeOk, Guarded, Exposed;
    var m := s.raids;
    assert SameProviders(m, m');
    forall x | x in m' && x !in m
      ensures m'[x].planning.None?
    {
      assert Fresh(m'[x], m[parent].deadline);
    }
    forall x | x in m && m'[x].planning.Some?
      ensures x in books && PlanningOk(m', hi, m'[x].planning.value, books[x], env)
    {
      PlanningKept(m, m', lo, hi, m[x].planning.value, books[x], env);
    }
    GrownExposed(m, m', lo, hi, parent);
  }

  lemma GrownExposed(m: Raids, m': Raids, lo: nat, hi: nat, parent: RaidId)
    requires WellFormed(m, lo) && Live(m, parent) && Grown(m, m', lo, hi, parent)
    ensures Exposed(m') == Exposed(m)
    ensures forall exposed :: Guarded(m, exposed) ==> Guarded(m', exposed)
    ensures forall x :: x in m ==> x in m' && (Live(m', x) <==> Live(m, x)) && m'[x].parent == m[x].parent && m[x].children <= m'[x].children
  {
    hide WellFormed, NodeOk;
    forall x | Live(m', x) && m'[x].parent.Some? && m'[x].parent.value in m' && x !in Exposed(m)
      ensures Live(m', m'[x].parent.value)
    {
      var p := m'[x].parent.value;
      if p !in m {
        assert Fresh(m'[p], m[parent].deadline);
      } else if x in m {
        assert m'[x].parent == m[x].parent;
      }
    }
    forall x | x in Exposed(m)
      ensures x in Exposed(m')
    {
    }
  }

  // ----- small facts the blocks need

  lemma LaterItself(m: Raids)
    ensures Later(m, m)
  {
  }

  lemma LiveChildOf(m: Raids, top: nat, p: RaidId, c: RaidId)
    requires WellFormed(m, top) && Live(m, c) && m[c].parent == Some(p)
    ensures HasLiveChild(m, p)
  {
    assert NodeOk(m, top, c);
    var k: nat :| k < |m[p].children| && m[p].children[k] == c;
  }

  lemma UnsettledIn(r: Raid, p: ProviderId)
    requires Unsettled(r, p)
    ensures p in r.assignments
  {
  }

  lemma UnsettledIs(r: Raid, p: ProviderId)
    ensures Unsettled(r, p) <==> p in r.assignments && !Settled(r.assignments[p].status)
  {
  }

  lemma PromoteSurvives(r: Raid, r': Raid)
    requires Survives(r, r')
    ensures Survives(PromoteReserve(r), PromoteReserve(r'))
    ensures PromoteReserve(r).children == r.children
  {
    hide Unranked;
  }

  lemma OnwardLeaf(m: Raids, b: map<RaidId, Books>, m': Raids, b': map<RaidId, Books>, id: RaidId)
    requires id in m && Onward(m, b, m', b')
    ensures id in m' && (m[id].children == [] ==> m'[id].children == [])
  {
  }

  lemma LaunchLater(m: Raids, m1: Raids, m2: Raids, top: nat, r: Raid, hi: nat)
    requires top !in m && m1 == m[top := r] && Grown(m1, m2, top + 1, hi, top)
    ensures Later(m, m2) && forall x :: x in m ==> x in m2 && m2[x] == m[x]
  {
    hide Fresh, NodeOk, WellFormed;
    GrownFacts(m1, m2, top + 1, hi, top);
    hide Grown;
    forall x | x in m
      ensures x in m2 && m2[x] == m[x]
    {
      assert x != top && m1[x] == m[x];
    }
  }

  lemma SurvivesEntries(r: Raid, r': Raid)
    requires Survives(r, r')
    ensures r.children == [] ==> Unranked(r'.ranked) == Unranked(r.ranked)
  {
  }

  lemma TouchedChildren(r: Raid, r': Raid)
    requires Touched(r, r')
    ensures r'.children == r.children
  {
  }

  lemma InviteIs(r: Raid, p: ProviderId)
    requires p in r.assignments
    ensures Invite(r, p) == r.(assignments := r.assignments[p := r.assignments[p].(status := Invited)], status := Running)
  {
  }

  lemma AssignmentsTouch(r: Raid, r': Raid)
    requires r' == r.(assignments := r'.assignments)
    ensures Touched(r, r')
  {
  }

  lemma StatusTouches(r: Raid, s: RaidStatus)
    requires !Terminal(r.status) && s == Dispatching
    ensures Touched(r, r.(status := s))
  {
  }

  lemma RefreshingLater(m: Raids, m': Raids)
    requires Refreshing(m, m')
    ensures Later(m, m') && Exposed(m') == Exposed(m)
  {
    hide Stretch, NewBelow, PlanLater;
    EffectOfRefreshing(m, m', {});
    EffectLater(m, m', {}, {});
    EffectKeepsTree(m, m', {}, {});
  }

  lemma NewRaidIs(parent: Option<RaidId>, deadline: int, task: Planning.Task, workstream: Option<string>,
                  primaries: seq<ProviderId>, reserves: seq<ProviderId>)
    ensures var r := NewRaid(parent, deadline, task, workstream, primaries, reserves);
            && r.parent == parent && r.children == [] && r.deadline == deadline && r.planning.None?
            && !Terminal(r.status) && !Terminal(Sanitizing)
  {
  }

  lemma StillMade(parent: Option<RaidId>, deadline: int, task: Planning.Task, workstream: Option<string>,
                  primaries: seq<ProviderId>, reserves: seq<ProviderId>)
    ensures var r := NewRaid(parent, deadline, task, workstream, primaries, reserves).(status := Sanitizing);
            JustMade(r, parent, deadline, task, workstream, primaries, reserves)
  {
    NewRaidMade(parent, deadline, task, workstream, primaries, reserves);
  }

  /** The root of a tree that is launched, its children aside. */
  function NewTree(deadline: int, task: Planning.Task, pool: seq<ProviderId>): Raid {
    NewRaid(None, deadline, task, None, [], []).(
      status := Sanitizing, planning := if pool == [] then None else Some(RaidState.Adaptive(pool, |pool|, 0, |pool|, [], [])))
  }

  lemma NewTreeIs(deadline: int, task: Planning.Task, pool: seq<ProviderId>)
    ensures var r := NewTree(deadline, task, pool);
            && r.parent.None? && r.children == [] && r.deadline == deadline && !Terminal(r.status)
            && r.task == task && r.status == Sanitizing && r.selected == [] && r.assignments == map[] && r.ranked == []
            && r.planning == if pool == [] then None else Some(RaidState.Adaptive(pool, |pool|, 0, |pool|, [], []))
  {
  }

  // ----- nothing that could be finalized is left

  /** Nothing keeps the raid from being finalized. */
  predicate Ready(m: Raids, x: RaidId)
    requires x in m
  {
    if m[x].children == [] then ShouldFinalize(m[x]) else AllTerminal(m, x)
  }

  /** Of `id` and the raids above it, none is live and free of a mark that could be finalized. */
  ghost predicate NoneReady(m: Raids, finalizing: set<RaidId>, id: RaidId) {
    forall x :: x in m && Below(m, x, id) && Live(m, x) && x !in finalizing ==> !Ready(m, x)
  }

  lemma NoneReadyDead(m: Raids, finalizing: set<RaidId>, id: RaidId)
    requires TreeDead(m, RootOf(m, id))
    ensures NoneReady(m, finalizing, id)
  {
    hide Ready;
    forall x | x in m && Below(m, x, id)
      ensures !Live(m, x)
    {
      RootOfBelow(m, x, id);
    }
  }

  /** Up to the parent it is so, and `id` is terminal, marked or not ready. */
  lemma NoneReadyUp(m: Raids, top: nat, finalizing: set<RaidId>, id: RaidId)
    requires WellFormed(m, top) && id in m && (Live(m, id) && id !in finalizing ==> !Ready(m, id))
    requires m[id].parent.Some? ==> NoneReady(m, finalizing, m[id].parent.value)
    ensures NoneReady(m, finalizing, id)
  {
    hide Ready, Live, NodeOk, WellFormed;
    AncestorsOf(m, top, id);
  }

  /** Above a live raid there is always a live child when nothing is exposed. */
  lemma {:induction false} UnreadyAbove(m: Raids, top: nat, x: RaidId, id: RaidId)
    requires WellFormed(m, top) && Guarded(m, {}) && Live(m, id) && x in m && Below(m, x, id) && x != id
    ensures HasLiveChild(m, x) && m[x].children != [] && !AllTerminal(m, x)
    decreases id
  {
    assert NodeOk(m, top, id);
    var p := m[id].parent.value;
    if p == x {
      LiveChildOf(m, top, p, id);
    } else {
      UnreadyAbove(m, top, x, p);
    }
  }

  lemma NoneReadyMarked(m: Raids, top: nat, finalizing: set<RaidId>, id: RaidId)
    requires WellFormed(m, top) && Guarded(m, {}) && Live(m, id) && id in finalizing
    ensures NoneReady(m, finalizing, id)
  {
    hide WellFormed, Guarded, Below;
    forall x | x in m && Below(m, x, id) && x != id
      ensures !Ready(m, x)
    {
      UnreadyAbove(m, top, x, id);
    }
  }

  /** A stretch in which nothing became terminal makes nothing ready. */
  lemma NoneReadyStays(s: Snapshot, s': Snapshot, top: nat, marks: set<RaidId>, root: RaidId, id: RaidId)
    requires Went(s, s', marks, {}, root) && Newly(s.raids, s'.raids) == {} && WellFormed(s'.raids, top)
    ensures NoneReady(s.raids, s.finalizing, id) ==> NoneReady(s'.raids, s'.finalizing, id)
  {
    hide Ready, Stretch, NodeOk, WellFormed, Elsewhere;
    EffectKeepsTree(s.raids, s'.raids, marks, {});
    EffectShrinksLive(s.raids, s'.raids, marks, {});
    if NoneReady(s.raids, s.finalizing, id) {
      forall x | x in s'.raids && Below(s'.raids, x, id) && Live(s'.raids, x) && x !in s'.finalizing
        ensures !Ready(s'.raids, x)
      {
        BelowDepends(s.raids, s'.raids, x, id);
        ChildKeys(s'.raids, top, x);
        StillUnready(s, s', marks, root, x);
      }
    }
  }

  /** What is above the parent is above the child. */
  lemma NoneReadyParent(m: Raids, top: nat, finalizing: set<RaidId>, id: RaidId)
    requires WellFormed(m, top) && id in m && m[id].parent.Some?
    ensures NoneReady(m, finalizing, id) ==> NoneReady(m, finalizing, m[id].parent.value)
    ensures NoneReady(m, finalizing, id) && Live(m, id) && id !in finalizing ==> !Ready(m, id)
  {
    hide Ready, Live, NodeOk, WellFormed;
    AncestorsOf(m, top, id);
    BelowItself(m, id);
  }

  /** Nobody was refused and nothing is expiring: no live raid is below a terminal one. */
  lemma Unexposed(s: Snapshot, top: nat, books: map<RaidId, Books>, env: Environment)
    requires Steady(s, top, {}, books, env) && s.refused == {}
    ensures WellFormed(s.raids, top) && Guarded(s.raids, {}) && {} + s.refused == {}
  {
    hide BooksOk, EnvironmentOk, WellFormed;
    assert {} + s.refused == {};
  }

  /** The deadline of a parent is that of its child. */
  lemma ReachedAlike(m: Raids, top: nat, marks: set<RaidId>, books: map<RaidId, Books>, env: Environment, s: Snapshot, p: RaidId, c: RaidId)
    requires Steady(s, top, marks, books, env) && m == s.raids && c in m && m[c].parent == Some(p)
    ensures p in m && forall t :: Reached(m, p, t) <==> Reached(m, c, t)
  {
    hide BooksOk, EnvironmentOk, Guarded;
    assert NodeOk(m, top, c);
  }

  /** Deadlines stay as they are. */
  lemma GrewReached(s: Snapshot, s': Snapshot, m': Raids, marks: set<RaidId>, next: nat, next': nat, root: RaidId, env: Environment, x: RaidId)
    requires Went(s, s', marks, {}, root) && Grew(s'.raids, m', next, next', root, env) && x in s.raids
    ensures x in m' && forall t :: Reached(m', x, t) <==> Reached(s.raids, x, t)
  {
    hide Stretch, Replanned, Elsewhere;
    EffectKeepsTree(s.raids, s'.raids, marks, {});
    if next' != next {
      var r, ch :| RootOf(s'.raids, r) == root && Replanned(s'.raids, m', next, next', r, env, ch);
      RevisionTarget(s'.raids, m', next, next', r, env, ch);
    }
  }

  lemma NotYetReached(m: Raids, id: RaidId, env: Environment, reached: bool, before: int, now: int)
    requires id in m && before <= now && reached == Reached(m, id, now)
    ensures CanReplan(m, id, env, reached) <==> CanReplan(m, id, env, false) && !reached
    ensures Reached(m, id, before) ==> reached
  {
  }

  /** A stretch in which nothing became terminal leaves an unready raid unready. */
  lemma StillUnready(s: Snapshot, s': Snapshot, marks: set<RaidId>, root: RaidId, id: RaidId)
    requires Went(s, s', marks, {}, root) && Newly(s.raids, s'.raids) == {} && id in s.raids && Live(s.raids, id) && !Ready(s.raids, id)
    requires forall k :: 0 <= k < |s.raids[id].children| ==> s.raids[id].children[k] in s.raids
    ensures id in s'.raids && !Ready(s'.raids, id)
  {
    hide DisqualifyAll, FinalizeRecord, ShouldFinalize;
    var m, m' := s.raids, s'.raids;
    EffectKeepsTree(m, m', marks, {});
    assert Stretch(m[id], m'[id], false);
    assert id !in Newly(m, m');
    if m[id].children != [] {
      var k: nat :| k < |m[id].children| && !(m[id].children[k] in m && Terminal(m[m[id].children[k]].status));
      assert m[id].children[k] !in Newly(m, m');
    }
  }

  lemma LiveAbove(m: Raids, top: nat, id: RaidId)
    requires WellFormed(m, top) && Guarded(m, {}) && Live(m, id)
    ensures m[id].parent.Some? ==> Live(m, m[id].parent.value)
  {
    AboveLiveIsLive(m, top, id);
  }

  lemma RefreshingLive(m: Raids, m': Raids, x: RaidId)
    requires Refreshing(m, m')
    ensures Live(m', x) <==> Live(m, x)
  {
    hide Stretch, Refreshing;
    EffectOfRefreshing(m, m', {});
  }

  lemma RecordedLive(m: Raids, id: RaidId, r: Raid, x: RaidId)
    requires x != id && id in m
    ensures Live(m[id := r], x) <==> Live(m, x)
  {
  }

  lemma ReadyIs(m: Raids, x: RaidId)
    requires x in m
    ensures Ready(m, x) <==> if m[x].children == [] then ShouldFinalize(m[x]) else AllTerminal(m, x)
  {
  }

  lemma ChildrenIn(m: Raids, top: nat, x: RaidId)
    requires WellFormed(m, top) && x in m
    ensures forall k :: 0 <= k < |m[x].children| ==> m[x].children[k] in m
  {
    ChildKeys(m, top, x);
  }

  lemma GrewSame(before: Raids, m: Raids, next: nat, root: RaidId, env: Environment)
    requires Grew(before, m, next, next, root, env)
    ensures m == before
  {
  }

  lemma GrewNext(before: Raids, m: Raids, next: nat, next': nat, root: RaidId, env: Environment)
    requires Grew(before, m, next, next', root, env)
    ensures next <= next'
  {
  }

  /** The tree around `id` is the same after a stretch. */
  lemma WentTree(s: Snapshot, s': Snapshot, marks: set<RaidId>, own: set<RaidId>, root: RaidId, id: RaidId)
    requires Went(s, s', marks, own, root) || RanOut(s, s', marks, own, root)
    ensures s'.raids.Keys == s.raids.Keys && RootOf(s'.raids, id) == RootOf(s.raids, id)
    ensures id in s.raids ==> s'.raids[id].parent == s.raids[id].parent && s'.raids[id].children == s.raids[id].children
    ensures Went(s, s', marks, own, root) ==> forall x :: !Live(s.raids, x) ==> !Live(s'.raids, x)
  {
    hide Stretch, Elsewhere, Newly;
    KeptUnderEffect(s.raids, s'.raids, marks, own, id);
    EffectShrinksLive(s.raids, s'.raids, marks, own);
  }

  lemma LivesAsBefore(s: Snapshot, s': Snapshot, marks: set<RaidId>, root: RaidId, id: RaidId)
    requires Went(s, s', marks, {}, root) && Newly(s.raids, s'.raids) == {} && id in s.raids
    ensures Live(s'.raids, id) <==> Live(s.raids, id)
  {
    hide Stretch;
    EffectShrinksLive(s.raids, s'.raids, marks, {});
    assert id !in Newly(s.raids, s'.raids);
  }

  /** After the ancestors were looked at, the raid is still live or its whole tree is not. */
  lemma LiveOrDead(s: Snapshot, s': Snapshot, m': Raids, next: nat, next': nat, root: RaidId, env: Environment, id: RaidId)
    requires WellFormed(s.raids, next) && PlansAtRoots(s.raids) && Went(s, s', {}, {}, root) && Grew(s'.raids, m', next, next', root, env)
    requires Live(s.raids, id) && RootOf(s.raids, id) == root
    requires Newly(s.raids, s'.raids) == {} || (next' == next && TreeDead(m', root))
    ensures Live(m', id) || TreeDead(m', RootOf(m', id))
  {
    hide Stretch, WellFormed, Replanned, Later, PlansAtRoots, Elsewhere;
    EffectKeepsTree(s.raids, s'.raids, {}, {});
    WellFormedSameTree(s.raids, s'.raids, next);
    EffectRoots(s.raids, s'.raids, {}, {});
    GrewLater(s'.raids, m', next, next', root, env);
    RootOfSame(s.raids, s'.raids, id);
    if Newly(s.raids, s'.raids) == {} {
      assert id !in Newly(s.raids, s'.raids);
    }
  }
}
