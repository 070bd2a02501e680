/** Stretches of finalization with the guard marks and the count of disqualification passes,
    and how they compose. */
module Runs {
  import opened Options
  import opened Sequences
  import opened RaidState
  import opened RaidTree
  import opened Spawning
  import opened Adaptive
  import opened Replanning
  import opened Expiry
  import opened PlanBooks
  import Aggregation

  /** The raids, the marks of those being finalized, how often the deadline passed over each raid,
      which raids an expiry found marked and left, and which ones the expiry visited. */
  datatype Snapshot = Snapshot(raids: Raids, finalizing: set<RaidId>, passes: multiset<RaidId>,
                               refused: set<RaidId>, visited: set<RaidId>)

  /** What holds between any two steps: the tree, the environment, the books of the plans, and
      only `exposed` raids live below a terminal one. */
  ghost predicate Sound(m: Raids, top: nat, exposed: set<RaidId>, books: map<RaidId, Books>, env: Environment) {
    WellFormed(m, top) && EnvironmentOk(env) && BooksOk(m, top, books, env) && PlansAtRoots(m) && Guarded(m, exposed)
  }

  /** The same during an expiry: exposed are the raids that are expiring and those it left. */
  ghost predicate Steady(s: Snapshot, top: nat, expiring: set<RaidId>, books: map<RaidId, Books>, env: Environment) {
    Sound(s.raids, top, expiring + s.refused, books, env) && MarksOk(s.raids, s.finalizing)
  }

  /** The live raids that are marked as being finalized: a revision reopened them. */
  function Caught(m: Raids, finalizing: set<RaidId>): set<RaidId> {
    set x | x in finalizing && Live(m, x)
  }

  predicate Reached(m: Raids, id: RaidId, now: int) {
    id in m && m[id].deadline * 1000 <= now
  }

  predicate ChildrenDone(m: Raids, id: RaidId, exposed: set<RaidId>) {
    id in m && forall k :: 0 <= k < |m[id].children| ==> !Live(m, m[id].children[k]) || m[id].children[k] in exposed
  }

  /** How far an expiry is: a visited raid that is not expiring any more is terminal, or it was
      marked and left; and the live raids next to it were visited. */
  ghost predicate Track(s: Snapshot, expiring: set<RaidId>) {
    && expiring <= s.visited
    && (forall x :: x in s.visited && x !in expiring ==> !Live(s.raids, x) || (x in s.finalizing && x in s.refused))
    && Closed(s.raids, s.visited, expiring)
  }

  /** A stretch marks what it finalizes, leaves other trees and marked raids alone, and refuses
      only raids that were live and marked. */
  ghost predicate Moved(s: Snapshot, s': Snapshot, marks: set<RaidId>, own: set<RaidId>, root: RaidId) {
    && Effect(s.raids, s'.raids, marks, own) && Elsewhere(s.raids, s'.raids, root)
    && s'.finalizing == s.finalizing + Newly(s.raids, s'.raids) && Newly(s.raids, s'.raids) !! s.finalizing
    && s.refused <= s'.refused <= s.refused + Caught(s.raids, s.finalizing)
  }

  /** Each raid that becomes terminal is passed over once (`own` was passed over before), others
      are not, unless they are visited and marked. */
  ghost predicate Passed(s: Snapshot, s': Snapshot, own: set<RaidId>) {
    && s.passes <= s'.passes
    && forall x :: x !in Caught(s.raids, s.finalizing) || x !in s'.visited ==>
         s'.passes[x] == s.passes[x] + if x in Newly(s.raids, s'.raids) && x !in own then 1 else 0
  }

  /** A stretch of an expiry. */
  ghost predicate RanOut(s: Snapshot, s': Snapshot, marks: set<RaidId>, own: set<RaidId>, root: RaidId) {
    && Moved(s, s', marks, own, root) && Passed(s, s', own)
    && s.visited <= s'.visited && Newly(s.raids, s'.raids) <= s'.visited
  }

  /** A stretch at any time. */
  ghost predicate Went(s: Snapshot, s': Snapshot, marks: set<RaidId>, own: set<RaidId>, root: RaidId) {
    && Moved(s, s', marks, own, root)
    && s.passes <= s'.passes
    && forall x :: x !in Caught(s.raids, s.finalizing) ==>
         s'.passes[x] <= s.passes[x] + if x in Newly(s.raids, s'.raids) then 1 else 0
  }

  /** Possibly one revision of a plan of the tree. */
  ghost predicate Grew(before: Raids, m: Raids, next: nat, next': nat, root: RaidId, env: Environment) {
    || (next' == next && m == before)
    || (next < next' && exists r, ch :: RootOf(before, r) == root && Replanned(before, m, next, next', r, env, ch))
  }

  ghost predicate HasLiveChild(m: Raids, id: RaidId) {
    id in m && exists k :: 0 <= k < |m[id].children| && Live(m, m[id].children[k])
  }

  lemma LiveIs(m: Raids, x: RaidId)
    ensures Live(m, x) <==> x in m && !Terminal(m[x].status)
  {
  }

  lemma SteadyFacts(s: Snapshot, top: nat, expiring: set<RaidId>, books: map<RaidId, Books>, env: Environment)
    ensures Steady(s, top, expiring, books, env) <==>
            && WellFormed(s.raids, top) && EnvironmentOk(env) && BooksOk(s.raids, top, books, env) && PlansAtRoots(s.raids)
            && Guarded(s.raids, expiring + s.refused) && MarksOk(s.raids, s.finalizing)
  {
  }

  /** Moving between a raid and its parent or child: the same tree and deadline. */
  lemma Neighbours(m: Raids, top: nat, id: RaidId, now: int)
    requires WellFormed(m, top) && id in m
    ensures m[id].parent.Some? ==>
              var p := m[id].parent.value;
              && p in m && p < id && RootOf(m, p) == RootOf(m, id) && (Reached(m, p, now) <==> Reached(m, id, now))
              && exists k :: 0 <= k < |m[p].children| && m[p].children[k] == id
  {
    assert NodeOk(m, top, id);
    if m[id].parent.Some? {
      var k: nat :| k < |m[m[id].parent.value].children| && m[m[id].parent.value].children[k] == id;
    }
  }

  lemma ChildNeighbour(m: Raids, top: nat, id: RaidId, k: nat, now: int)
    requires WellFormed(m, top) && id in m && k < |m[id].children|
    ensures var c := m[id].children[k];
            c in m && id < c && m[c].parent == Some(id) && RootOf(m, c) == RootOf(m, id)
            && (Reached(m, c, now) <==> Reached(m, id, now))
  {
    hide NodeOk, WellFormed, RootOf;
    ChildBelow(m, top, id, k);
    Neighbours(m, top, m[id].children[k], now);
  }

  lemma KeptUnderEffect(m: Raids, m': Raids, marks: set<RaidId>, own: set<RaidId>, id: RaidId)
    requires Effect(m, m', marks, own)
    ensures m'.Keys == m.Keys && RootOf(m', id) == RootOf(m, id)
    ensures forall now :: Reached(m', id, now) == Reached(m, id, now)
    ensures id in m ==> m'[id].children == m[id].children && m'[id].parent == m[id].parent && m'[id].selected == m[id].selected
    ensures !Live(m, id) ==> !Live(m', id)
    ensures |Unmarked(m', marks)| <= |Unmarked(m, marks)|
  {
    hide Stretch;
    EffectKeepsTree(m, m', marks, own);
    EffectShrinksLive(m, m', marks, own);
    RootOfSame(m, m', id);
    SubsetSize(Unmarked(m', marks), Unmarked(m, marks));
  }

  lemma MarkShrinks(m: Raids, marks: set<RaidId>, id: RaidId)
    requires Live(m, id) && id !in marks
    ensures |Unmarked(m, marks + {id})| < |Unmarked(m, marks)|
  {
    assert id in Unmarked(m, marks);
    SubsetSize(Unmarked(m, marks + {id}), Unmarked(m, marks));
  }

  lemma RanNothing(s: Snapshot, marks: set<RaidId>, root: RaidId)
    ensures RanOut(s, s, marks, {}, root) && Went(s, s, marks, {}, root)
  {
    hide Stretch;
    EffectOfNothing(s.raids, marks);
  }

  /** Marked raids stay as they are, and what is marked on the way is terminal. */
  lemma CaughtStays(s: Snapshot, s': Snapshot, marks: set<RaidId>, own: set<RaidId>, root: RaidId)
    requires Moved(s, s', marks, own, root)
    ensures Caught(s'.raids, s'.finalizing) == Caught(s.raids, s.finalizing)
    ensures forall x :: Live(s'.raids, x) ==> Live(s.raids, x)
    ensures s'.raids.Keys == s.raids.Keys
  {
    hide Stretch;
    EffectShrinksLive(s.raids, s'.raids, marks, own);
  }

  lemma MovedOn(s: Snapshot, s1: Snapshot, s2: Snapshot, marks: set<RaidId>, root: RaidId)
    requires Moved(s, s1, marks, {}, root) && Moved(s1, s2, marks, {}, root)
    ensures Moved(s, s2, marks, {}, root)
    ensures Newly(s.raids, s2.raids) == Newly(s.raids, s1.raids) + Newly(s1.raids, s2.raids)
    ensures Newly(s.raids, s1.raids) !! Newly(s1.raids, s2.raids)
    ensures Caught(s1.raids, s1.finalizing) == Caught(s.raids, s.finalizing)
  {
    CaughtStays(s, s1, marks, {}, root);
    EffectOn(s.raids, s1.raids, s2.raids, marks);
    EffectKeepsTree(s.raids, s1.raids, marks, {});
    hide Newly, Effect, Caught;
    ElsewhereOn(s.raids, s1.raids, s2.raids, root);
  }

  lemma RanOn(s: Snapshot, s1: Snapshot, s2: Snapshot, marks: set<RaidId>, root: RaidId)
    requires RanOut(s, s1, marks, {}, root) && RanOut(s1, s2, marks, {}, root)
    ensures RanOut(s, s2, marks, {}, root)
  {
    hide Moved, Newly, Caught;
    MovedOn(s, s1, s2, marks, root);
  }

  lemma WentOn(s: Snapshot, s1: Snapshot, s2: Snapshot, marks: set<RaidId>, root: RaidId)
    requires Went(s, s1, marks, {}, root) && Went(s1, s2, marks, {}, root)
    ensures Went(s, s2, marks, {}, root)
    ensures Newly(s.raids, s2.raids) == Newly(s.raids, s1.raids) + Newly(s1.raids, s2.raids)
  {
    hide Moved, Newly, Caught;
    MovedOn(s, s1, s2, marks, root);
  }

  lemma RanOutWent(s: Snapshot, s': Snapshot, marks: set<RaidId>, root: RaidId)
    requires RanOut(s, s', marks, {}, root)
    ensures Went(s, s', marks, {}, root)
  {
    hide Moved, Newly, Caught;
  }

  /** Before an expiry begins, nothing was visited. */
  lemma Forgets(s: Snapshot, top: nat, books: map<RaidId, Books>, env: Environment)
    requires Steady(s, top, {}, books, env)
    ensures Steady(s.(visited := {}), top, {}, books, env) && Track(s.(visited := {}), {})
  {
    hide BooksOk, EnvironmentOk, WellFormed, Guarded;
  }

  /** Which raids were visited matters to an expiry only. */
  lemma WentForgets(s: Snapshot, s': Snapshot, marks: set<RaidId>, own: set<RaidId>, root: RaidId, visited: set<RaidId>)
    requires Went(s.(visited := visited), s', marks, own, root)
    ensures Went(s, s', marks, own, root)
  {
    hide Newly, Caught, Effect, Elsewhere;
  }

  lemma RanOutFacts(s: Snapshot, s': Snapshot, marks: set<RaidId>, own: set<RaidId>, root: RaidId)
    requires RanOut(s, s', marks, own, root)
    ensures Effect(s.raids, s'.raids, marks, own) && Elsewhere(s.raids, s'.raids, root) && Moved(s, s', marks, own, root)
    ensures MarksOk(s.raids, s.finalizing) ==> MarksOk(s'.raids, s'.finalizing)
    ensures s.visited <= s'.visited && s.refused <= s'.refused
    ensures forall x :: Live(s.raids, x) && x in s'.finalizing && Live(s'.raids, x) ==> x in s.finalizing
  {
    hide Stretch;
    EffectShrinksLive(s.raids, s'.raids, marks, own);
    EffectKeepsTree(s.raids, s'.raids, marks, own);
  }

  lemma WentFacts(s: Snapshot, s': Snapshot, marks: set<RaidId>, own: set<RaidId>, root: RaidId)
    requires Went(s, s', marks, own, root)
    ensures Effect(s.raids, s'.raids, marks, own) && Elsewhere(s.raids, s'.raids, root) && Moved(s, s', marks, own, root)
    ensures MarksOk(s.raids, s.finalizing) ==> MarksOk(s'.raids, s'.finalizing)
    ensures s.refused <= s'.refused
  {
    hide Stretch;
    EffectShrinksLive(s.raids, s'.raids, marks, own);
    EffectKeepsTree(s.raids, s'.raids, marks, own);
  }

  // ----- how far an expiry is

  lemma TrackEnter(s: Snapshot, expiring: set<RaidId>, id: RaidId)
    requires Track(s, expiring)
    ensures Track(s.(visited := s.visited + {id}), expiring + {id})
  {
  }

  lemma TrackStays(s: Snapshot, s': Snapshot, expiring: set<RaidId>)
    requires Track(s, expiring) && SameTree(s.raids, s'.raids) && s'.visited == s.visited
    requires forall x :: Live(s'.raids, x) ==> Live(s.raids, x)
    requires s.finalizing <= s'.finalizing && s.refused <= s'.refused
    ensures Track(s', expiring)
  {
  }

  /** `id` is done with: it is terminal or was left, and so were its neighbours or they are still
      to come. */
  lemma TrackLeave(s: Snapshot, top: nat, expiring: set<RaidId>, books: map<RaidId, Books>, env: Environment, id: RaidId)
    requires Track(s, expiring + {id}) && Steady(s, top, expiring + {id}, books, env) && id in s.raids && id !in expiring
    requires !Live(s.raids, id) || (id in s.finalizing && id in s.refused)
    requires forall k :: 0 <= k < |s.raids[id].children| ==> Seen(s, s.raids[id].children[k])
    requires s.raids[id].parent.Some? ==> Seen(s, s.raids[id].parent.value)
    ensures Track(s, expiring) && Steady(s, top, expiring, books, env)
  {
    hide BooksOk, EnvironmentOk, WellFormed;
  }

  /** Terminal, or visited. */
  predicate Seen(s: Snapshot, x: RaidId) {
    Live(s.raids, x) ==> x in s.visited
  }

  lemma SeenIs(s: Snapshot, x: RaidId)
    ensures Seen(s, x) <==> !Live(s.raids, x) || x in s.visited
  {
  }

  lemma StillSeen(s: Snapshot, s': Snapshot, marks: set<RaidId>, own: set<RaidId>, root: RaidId)
    requires RanOut(s, s', marks, own, root)
    ensures forall x :: Seen(s, x) ==> Seen(s', x)
  {
    hide Stretch;
    EffectShrinksLive(s.raids, s'.raids, marks, own);
  }

  lemma TrackHas(s: Snapshot, expiring: set<RaidId>)
    ensures Track(s, expiring) ==> expiring <= s.visited
  {
  }

  lemma SeenAlready(s: Snapshot, expiring: set<RaidId>, id: RaidId)
    requires Track(s, expiring) && (!Live(s.raids, id) || id in expiring)
    ensures Seen(s, id)
  {
  }

  /** After the loop over its children a raid may be finalized. */
  lemma SeenDone(s: Snapshot, expiring: set<RaidId>, id: RaidId)
    requires Track(s, expiring) && id in s.raids && forall k :: 0 <= k < |s.raids[id].children| ==> Seen(s, s.raids[id].children[k])
    ensures ChildrenDone(s.raids, id, expiring + s.refused)
  {
  }

  // ----- the parts of an expiry

  /** The raid goes in: it is visited and expiring. */
  lemma Enters(s: Snapshot, top: nat, expiring: set<RaidId>, books: map<RaidId, Books>, env: Environment, id: RaidId, root: RaidId)
    requires Steady(s, top, expiring, books, env) && Track(s, expiring) && Live(s.raids, id) && id !in expiring
    ensures var s0 := s.(visited := s.visited + {id});
            && Steady(s0, top, expiring + {id}, books, env) && Track(s0, expiring + {id})
            && RanOut(s0, s0, expiring + {id}, {}, root)
            && |Unmarked(s.raids, expiring + {id})| < |Unmarked(s.raids, expiring)|
  {
    hide BooksOk, EnvironmentOk, WellFormed, Track, RanOut;
    TrackEnter(s, expiring, id);
    RanNothing(s.(visited := s.visited + {id}), expiring + {id}, root);
    MarkShrinks(s.raids, expiring, id);
  }

  /** A refresh counts as a stretch in which nothing happens. */
  lemma RefreshRan(s: Snapshot, m': Raids, top: nat, marks: set<RaidId>, books: map<RaidId, Books>, env: Environment, root: RaidId)
    requires Steady(s, top, marks, books, env) && Refreshing(s.raids, m') && Elsewhere(s.raids, m', root)
    ensures var s' := s.(raids := m');
            && Steady(s', top, marks, books, env) && RanOut(s, s', marks, {}, root) && Went(s, s', marks, {}, root)
            && (Track(s, marks) ==> Track(s', marks))
    ensures Newly(s.raids, m') == {} && forall x :: Live(m', x) <==> Live(s.raids, x)
  {
    hide Stretch, BooksOk, EnvironmentOk, Refreshing, SameShape, Elsewhere, NodeOk, WellFormed, Track, Guarded, PlansAtRoots;
    var m := s.raids;
    EffectOfRefreshing(m, m', marks);
    EffectKeepsTree(m, m', marks, {});
    GuardedStays(m, m', marks + s.refused);
    RefreshingKeepsPlans(m, m');
    BooksKept(m, m', top, books, env);
    RootsKept(m, m');
    WellFormedSameTree(m, m', top);
    if Track(s, marks) {
      TrackStays(s, s.(raids := m'), marks);
    }
  }

  lemma NearLater(m: Raids, m': Raids, begun: Raids, apex: RaidId, x: RaidId)
    requires Near(m, begun, apex, x) && (Live(m', x) ==> Live(m, x))
    ensures Near(m', begun, apex, x)
  {
    hide TopOf;
  }

  lemma RootsKept(m: Raids, m': Raids)
    requires m'.Keys == m.Keys && forall x :: x in m ==> m'[x].parent == m[x].parent && m'[x].planning.Some? == m[x].planning.Some?
    requires PlansAtRoots(m)
    ensures PlansAtRoots(m')
  {
  }

  /** The disqualification pass over `id` itself. */
  lemma PassSound(s: Snapshot, top: nat, marks: set<RaidId>, books: map<RaidId, Books>, env: Environment, id: RaidId)
    requires Steady(s, top, marks, books, env) && Track(s, marks) && id in s.raids
    ensures var m' := s.raids[id := DisqualifyAll(s.raids[id])];
            var s' := s.(raids := m', passes := s.passes + multiset{id});
            && Steady(s', top, marks, books, env) && Track(s', marks)
            && (forall x :: Live(m', x) <==> Live(s.raids, x)) && (forall x :: Seen(s, x) ==> Seen(s', x))
            && SameTree(s.raids, m') && m'[id].parent == s.raids[id].parent && m'[id].children == s.raids[id].children
            && RootOf(m', id) == RootOf(s.raids, id) && (forall now :: Reached(m', id, now) == Reached(s.raids, id, now))
            && Unmarked(m', marks) == Unmarked(s.raids, marks)
  {
    hide BooksOk, EnvironmentOk, DisqualifyAll, NodeOk, WellFormed, Track, Guarded;
    var m' := s.raids[id := DisqualifyAll(s.raids[id])];
    DisqualifiedKeeps(s.raids[id]);
    UpdateKeepsPlans(s.raids, id, m'[id]);
    BooksKept(s.raids, m', top, books, env);
    UpdateKeepsTree(s.raids, top, id, m'[id]);
    GuardedStays(s.raids, m', marks + s.refused);
    RootOfSame(s.raids, m', id);
    TrackStays(s, s.(raids := m', passes := s.passes + multiset{id}), marks);
  }

  /** The stretches of one expiry. */
  lemma ExpiryRan(s: Snapshot, s1: Snapshot, s2: Snapshot, s3: Snapshot, s4: Snapshot, marks: set<RaidId>, id: RaidId, root: RaidId)
    requires Live(s.raids, id) && id !in marks && id in s1.raids && RootOf(s.raids, id) == root && id in s.visited
    requires RanOut(s, s1, marks + {id}, {}, root)
    requires s2 == s1.(raids := s1.raids[id := DisqualifyAll(s1.raids[id])], passes := s1.passes + multiset{id})
    requires RanOut(s2, s3, marks + {id}, {}, root) && RanOut(s3, s4, marks + {id}, {id}, root)
    requires id in Newly(s3.raids, s4.raids) || (s4.raids == s3.raids && s.raids[id].children != [] && id in s.finalizing)
    ensures RanOut(s, s4, marks, {}, root)
  {
    hide Stretch, DisqualifyAll, Newly, Effect, Elsewhere, Caught;
    ExpiryAssembled(s.raids, s1.raids, s2.raids, s3.raids, s4.raids, marks, id);
    LiveIs(s.raids, id);
    ExpiryElsewhere(s.raids, s1.raids, s2.raids, s3.raids, s4.raids, marks, id, root);
    CaughtStays(s, s1, marks + {id}, {}, root);
    CaughtPass(s1, s2, id);
    CaughtStays(s2, s3, marks + {id}, {}, root);
    CaughtIs(s, id);
    OwnOnce(s, s1, s2, s3, s4, marks, id, root);
  }

  /** Going in is part of the expiry. */
  lemma EnteredRan(s: Snapshot, s': Snapshot, marks: set<RaidId>, root: RaidId, id: RaidId)
    requires RanOut(s.(visited := s.visited + {id}), s', marks, {}, root)
    ensures RanOut(s, s', marks, {}, root)
  {
    hide Newly, Caught, Effect, Elsewhere;
  }

  /** A raid that is marked when it has come that far was marked when it went in. */
  lemma WasCaught(s: Snapshot, s1: Snapshot, s2: Snapshot, s3: Snapshot, top: nat, marks: set<RaidId>, books: map<RaidId, Books>,
                  env: Environment, id: RaidId, root: RaidId)
    requires Steady(s, top, marks, books, env) && RanOut(s, s1, marks, {}, root) && id in s1.raids
    requires s2 == s1.(raids := s1.raids[id := DisqualifyAll(s1.raids[id])], passes := s1.passes + multiset{id})
    requires RanOut(s2, s3, marks, {}, root) && Live(s3.raids, id)
    ensures id in s3.finalizing ==> id in s.finalizing && s.raids[id].children != [] && s.raids[id].parent.Some?
  {
    hide RanOut, BooksOk, EnvironmentOk, WellFormed, Guarded, Caught;
    RanOutFacts(s, s1, marks, {}, root);
    RanOutFacts(s2, s3, marks, {}, root);
    CaughtStays(s, s1, marks, {}, root);
    CaughtPass(s1, s2, id);
    CaughtStays(s2, s3, marks, {}, root);
    CaughtIs(s, id);
    CaughtIs(s3, id);
  }

  /** The raid goes out: it is terminal, or marked and refused. */
  lemma ExpiryEnds(s: Snapshot, s1: Snapshot, s2: Snapshot, s3: Snapshot, s4: Snapshot, top: nat, marks: set<RaidId>,
                   books: map<RaidId, Books>, env: Environment, id: RaidId, root: RaidId)
    requires Live(s.raids, id) && id !in marks && id in s1.raids && RootOf(s.raids, id) == root
    requires var s0 := s.(visited := s.visited + {id});
             Steady(s0, top, marks + {id}, books, env) && RanOut(s0, s1, marks + {id}, {}, root)
    requires s2 == s1.(raids := s1.raids[id := DisqualifyAll(s1.raids[id])], passes := s1.passes + multiset{id})
    requires RanOut(s2, s3, marks + {id}, {}, root) && RanOut(s3, s4, marks + {id}, {id}, root) && Live(s3.raids, id)
    requires Steady(s4, top, marks + {id}, books, env) && Track(s4, marks + {id})
    requires if id in s3.finalizing then s4.raids == s3.raids && id in s4.refused && id in s4.finalizing
             else id in Newly(s3.raids, s4.raids)
    requires forall k :: 0 <= k < |s.raids[id].children| ==> Seen(s3, s.raids[id].children[k])
    requires s.raids[id].parent.Some? ==> Seen(s3, s.raids[id].parent.value)
    ensures RanOut(s, s4, marks, {}, root) && Steady(s4, top, marks, books, env) && Track(s4, marks) && Seen(s4, id)
  {
    hide RanOut, DisqualifyAll, Steady, Track, Seen;
    var s0 := s.(visited := s.visited + {id});
    WasCaught(s0, s1, s2, s3, top, marks + {id}, books, env, id, root);
    StillSeen(s3, s4, marks + {id}, {id}, root);
    ExpiryRan(s0, s1, s2, s3, s4, marks, id, root);
    RanOutFacts(s0, s4, marks, {}, root);
    KeptUnderEffect(s0.raids, s4.raids, marks, {}, id);
    EnteredRan(s, s4, marks, root, id);
    SeenIs(s4, id);
    TrackLeave(s4, top, marks, books, env, id);
  }

  lemma CaughtIs(s: Snapshot, id: RaidId)
    ensures id in Caught(s.raids, s.finalizing) <==> id in s.finalizing && Live(s.raids, id)
  {
  }

  lemma CaughtPass(s1: Snapshot, s2: Snapshot, id: RaidId)
    requires id in s1.raids && s2 == s1.(raids := s1.raids[id := DisqualifyAll(s1.raids[id])], passes := s1.passes + multiset{id})
    ensures Caught(s2.raids, s2.finalizing) == Caught(s1.raids, s1.finalizing)
    ensures s2.raids.Keys == s1.raids.Keys
  {
    hide DisqualifyAll;
    DisqualifiedKeeps(s1.raids[id]);
  }

  /** The raid that expires is in only one of the stretches. */
  lemma OwnOnce(s: Snapshot, s1: Snapshot, s2: Snapshot, s3: Snapshot, s4: Snapshot, marks: set<RaidId>, id: RaidId, root: RaidId)
    requires RanOut(s, s1, marks + {id}, {}, root) && RanOut(s2, s3, marks + {id}, {}, root)
    ensures id !in Newly(s.raids, s1.raids) && id !in Newly(s2.raids, s3.raids)
  {
    hide Stretch, Newly, Elsewhere, Caught;
  }

  lemma ExpiryElsewhere(m: Raids, m1: Raids, m2: Raids, m3: Raids, m4: Raids, marks: set<RaidId>, id: RaidId, root: RaidId)
    requires id in m && Effect(m, m1, marks + {id}, {}) && m2 == m1[id := DisqualifyAll(m1[id])] && RootOf(m, id) == root
    requires Effect(m2, m3, marks + {id}, {}) && Effect(m3, m4, marks + {id}, {id})
    requires Elsewhere(m, m1, root) && Elsewhere(m2, m3, root) && Elsewhere(m3, m4, root)
    ensures Elsewhere(m, m4, root)
  {
    hide Stretch, DisqualifyAll, Elsewhere, Effect, RootOf;
    ExpiryKeepsTree(m, m1, m2, m3, m4, marks, id);
    UpdateElsewhere(m, m1, m2, id, root);
    ElsewhereOn(m, m1, m2, root);
    ElsewhereOn(m, m2, m3, root);
    ElsewhereOn(m, m3, m4, root);
  }

  lemma UpdateElsewhere(m: Raids, m1: Raids, m2: Raids, id: RaidId, root: RaidId)
    requires id in m && m1.Keys == m.Keys && (forall x :: x in m ==> m1[x].parent == m[x].parent) && RootOf(m, id) == root
    requires id in m1 && id in m2 && m2 == m1[id := m2[id]]
    ensures Elsewhere(m1, m2, root)
  {
    RootOfSame(m, m1, id);
  }

  /** The record of `id` is made final. */
  lemma RecordSound(s: Snapshot, m1: Raids, top: nat, marks: set<RaidId>, books: map<RaidId, Books>, env: Environment,
                    id: RaidId, root: RaidId)
    requires Steady(s, top, marks, books, env) && Live(s.raids, id) && ChildrenDone(s.raids, id, marks + s.refused)
    requires Refreshing(s.raids, m1) && Elsewhere(s.raids, m1, root) && RootOf(s.raids, id) == root && id in m1
    ensures var s2 := s.(raids := m1[id := FinalizeRecord(m1[id])], finalizing := s.finalizing + {id});
            && Steady(s2, top, marks, books, env)
            && SameTree(s.raids, s2.raids) && s2.raids[id].parent == s.raids[id].parent && RootOf(s2.raids, id) == root
            && (forall x :: Live(s2.raids, x) ==> Live(s.raids, x))
            && (forall now :: Reached(s2.raids, id, now) == Reached(s.raids, id, now))
            && Elsewhere(s.raids, s2.raids, root) && |Unmarked(s2.raids, marks)| <= |Unmarked(s.raids, marks)|
            && (Track(s, marks) ==> Track(s2, marks))
  {
    hide Stretch, BooksOk, EnvironmentOk, Refreshing, Elsewhere, NodeOk, WellFormed, FinalizeRecord, Effect, Guarded, Track, PlansAtRoots,
         SameTree, SamePlans, Newly, RootOf, MarksOk, Live, Unmarked, Reached;
    var m := s.raids;
    var s2 := s.(raids := m1[id := FinalizeRecord(m1[id])], finalizing := s.finalizing + {id});
    var m2 := s2.raids;
    RecordKeeps(m, m1, marks, id, s.finalizing);
    SameTreeParents(m, m2);
    RecordElsewhere(m, m1, marks, id, root);
    GuardedWithout(m, m2, top, marks + s.refused, id);
    WellFormedSameTree(m, m2, top);
    BooksKept(m, m2, top, books, env);
    if Track(s, marks) {
      TrackStays(s, s2, marks);
    }
  }

  lemma SameTreeParents(m: Raids, m': Raids)
    requires SameTree(m, m')
    ensures m'.Keys == m.Keys && forall x :: x in m ==> m'[x].parent == m[x].parent
  {
  }

  lemma RecordKeeps(m: Raids, m1: Raids, marks: set<RaidId>, id: RaidId, finalizing: set<RaidId>)
    requires Live(m, id) && Refreshing(m, m1) && id in m1
    ensures var m2 := m1[id := FinalizeRecord(m1[id])];
            && SameTree(m, m2) && SamePlans(m, m2) && (PlansAtRoots(m) ==> PlansAtRoots(m2))
            && id in m && !Live(m2, id) && (forall x :: x != id ==> (Live(m2, x) <==> Live(m, x)))
            && (forall x :: Live(m2, x) ==> Live(m, x))
            && (MarksOk(m, finalizing) ==> MarksOk(m2, finalizing + {id}))
  {
    hide Stretch, Refreshing, FinalizeRecord, Effect, Newly;
    var m2 := m1[id := FinalizeRecord(m1[id])];
    EffectOfNothing(m2, marks);
    FinalizationAssembled(m, m1, m2, m2, marks, id);
    FinalizationLive(m, m1, m2, m2, marks, id);
    EffectKeepsTree(m, m2, marks, {id});
    FinalizeKeeps(m1[id]);
    RefreshingKeepsPlans(m, m1);
    SamePlansThen(m, m1, id, m2[id]);
  }

  lemma RecordElsewhere(m: Raids, m1: Raids, marks: set<RaidId>, id: RaidId, root: RaidId)
    requires Live(m, id) && Refreshing(m, m1) && id in m1 && Elsewhere(m, m1, root) && RootOf(m, id) == root
    ensures var m2 := m1[id := FinalizeRecord(m1[id])];
            && RootOf(m2, id) == root && (forall now :: Reached(m2, id, now) == Reached(m, id, now))
            && Elsewhere(m, m2, root) && |Unmarked(m2, marks)| <= |Unmarked(m, marks)|
  {
    hide Stretch, Refreshing, Elsewhere, FinalizeRecord, Effect, Newly;
    var m2 := m1[id := FinalizeRecord(m1[id])];
    EffectOfNothing(m2, marks);
    FinalizationAssembled(m, m1, m2, m2, marks, id);
    KeptUnderEffect(m, m2, marks, {id}, id);
    EffectOfRefreshing(m, m1, marks);
    EffectKeepsTree(m, m1, marks, {});
    LiveIs(m, id);
    UpdateElsewhere(m, m1, m2, id, root);
    ElsewhereOn(m, m1, m2, root);
  }

  lemma SamePlansThen(m: Raids, m1: Raids, id: RaidId, r: Raid)
    requires SamePlans(m, m1) && id in m1 && r.planning == m1[id].planning && r.reserves == m1[id].reserves && r.selected == m1[id].selected
    ensures SamePlans(m, m1[id := r])
  {
  }

  /** A finalization and the stretch above it. */
  lemma FinalizationRan(s: Snapshot, m1: Raids, s2: Snapshot, s4: Snapshot, marks: set<RaidId>, id: RaidId, root: RaidId)
    requires Live(s.raids, id) && id !in s.finalizing && Refreshing(s.raids, m1) && id in m1
    requires s2 == s.(raids := m1[id := FinalizeRecord(m1[id])], finalizing := s.finalizing + {id})
    requires Elsewhere(s.raids, s2.raids, root) && Went(s2, s4, marks, {}, root)
    ensures Went(s, s4, marks, {id}, root) && id in Newly(s.raids, s4.raids)
    ensures RanOut(s2, s4, marks, {}, root) && id in s.visited ==> RanOut(s, s4, marks, {id}, root)
  {
    hide Stretch, FinalizeRecord, Refreshing, Elsewhere, Effect, Newly, Caught;
    FinalizationAssembled(s.raids, m1, s2.raids, s4.raids, marks, id);
    FinalizationStretches(s.raids, m1, s2.raids, s4.raids, marks, id);
    FinalizationCaught(s, m1, s2, s4, marks, id);
    ElsewhereOn(s.raids, s2.raids, s4.raids, root);
  }

  lemma FinalizationCaught(s: Snapshot, m1: Raids, s2: Snapshot, s4: Snapshot, marks: set<RaidId>, id: RaidId)
    requires Live(s.raids, id) && id !in s.finalizing && Refreshing(s.raids, m1) && id in m1
    requires s2 == s.(raids := m1[id := FinalizeRecord(m1[id])], finalizing := s.finalizing + {id})
    requires Effect(s2.raids, s4.raids, marks, {})
    ensures Caught(s2.raids, s2.finalizing) == Caught(s.raids, s.finalizing) && id !in Caught(s.raids, s.finalizing)
  {
    hide Refreshing, FinalizeRecord, Effect;
    FinalizationLive(s.raids, m1, s2.raids, s4.raids, marks, id);
  }

  lemma OwnWent(s: Snapshot, s': Snapshot, marks: set<RaidId>, id: RaidId, root: RaidId)
    requires Went(s, s', marks, {id}, root) && id in s.raids && id !in marks
    requires s.raids[id].children != [] || ShouldFinalize(s.raids[id])
    ensures Went(s, s', marks, {}, root)
  {
    hide Stretch, ShouldFinalize, Elsewhere, Effect, Newly, Caught;
    OwnDropped(s.raids, s'.raids, marks, id);
  }

  /** The finalization of a raid that is marked already is refused. */
  lemma RefusedRan(s: Snapshot, top: nat, marks: set<RaidId>, books: map<RaidId, Books>, env: Environment, id: RaidId, root: RaidId)
    requires Steady(s, top, marks, books, env) && Live(s.raids, id) && id in s.finalizing
    ensures var s' := s.(refused := s.refused + {id});
            && Steady(s', top, marks, books, env) && RanOut(s, s', marks, {id}, root)
            && (Track(s, marks) ==> Track(s', marks)) && s.raids[id].children != []
  {
    hide Stretch, BooksOk, EnvironmentOk, WellFormed, Track;
    EffectOfNothing(s.raids, marks);
    EffectOwn(s.raids, marks, id);
    if Track(s, marks) {
      TrackStays(s, s.(refused := s.refused + {id}), marks);
    }
  }

  lemma EffectOwn(m: Raids, marks: set<RaidId>, id: RaidId)
    ensures Effect(m, m, marks, {id}) && Newly(m, m) == {}
  {
  }

  // ----- the steps of the methods, one by one

  lemma RefreshingNothing(m: Raids, root: RaidId)
    ensures Refreshing(m, m) && Elsewhere(m, m, root)
  {
  }

  lemma RefreshStep(m: Raids, m1: Raids, m2: Raids, top: nat, id: RaidId, root: RaidId)
    requires WellFormed(m1, top) && Refreshing(m, m1) && Elsewhere(m, m1, root)
    requires id in m1 && RootOf(m1, id) == root && RefreshedBelow(m1, m2, id)
    ensures WellFormed(m2, top) && Refreshing(m, m2) && Elsewhere(m, m2, root) && id in m2
    ensures m2[id].parent.Some? ==> var p := m2[id].parent.value; p in m2 && p < id && RootOf(m2, p) == root
    ensures m2[id].parent.None? ==> RefreshedBelow(m2, m2, root)
  {
    hide Refreshed, NodeOk, WellFormed, Below, SameNode, RefreshedBelow, Refreshing, Elsewhere;
    RefreshIsRefreshing(m1, m2, id);
    RefreshingOn(m, m1, m2);
    RefreshElsewhere(m1, m2, id);
    RefreshingTree(m, m1);
    RefreshingTree(m1, m2);
    ElsewhereOn(m, m1, m2, root);
    WellFormedSameTree(m1, m2, top);
    RootOfSame(m1, m2, id);
    Neighbours(m2, top, id, 0);
    Aggregation.RefreshIdempotent(m1, m2, top, id);
    if m2[id].parent.None? {
      RootItself(m2, id);
    }
  }

  lemma RootItself(m: Raids, id: RaidId)
    requires id in m && m[id].parent.None?
    ensures RootOf(m, id) == id
  {
  }

  lemma RefreshingTree(m: Raids, m': Raids)
    requires Refreshing(m, m')
    ensures SameTree(m, m')
  {
    hide Stretch;
    EffectOfRefreshing(m, m', {});
    EffectKeepsTree(m, m', {}, {});
  }

  lemma ReachedIn(m: Raids, id: RaidId, now: int)
    requires Reached(m, id, now)
    ensures id in m
  {
  }

  lemma ReachedLater(m: Raids, id: RaidId, before: int, now: int)
    requires Reached(m, id, before) && before <= now
    ensures Reached(m, id, now)
  {
  }

  /** The loop over the children reaches a next one. */
  lemma NextChild(s: Snapshot, s1: Snapshot, top: nat, marks: set<RaidId>, id: RaidId, k: nat, root: RaidId, before: int, now: int)
    requires WellFormed(s.raids, top) && Reached(s.raids, id, before) && before <= now && RootOf(s.raids, id) == root
    requires RanOut(s, s1, marks, {}, root) && id in s.raids && k < |s.raids[id].children|
    ensures var c := s.raids[id].children[k];
            && c in s1.raids && Reached(s1.raids, c, now) && RootOf(s1.raids, c) == root
            && |Unmarked(s1.raids, marks)| <= |Unmarked(s.raids, marks)|
  {
    hide Stretch, NodeOk, WellFormed, RootOf, Effect, Elsewhere, Newly;
    var c := s.raids[id].children[k];
    ChildNeighbour(s.raids, top, id, k, now);
    ReachedLater(s.raids, id, before, now);
    KeptUnderEffect(s.raids, s1.raids, marks, {}, c);
  }

  lemma AfterChildren(s: Snapshot, s1: Snapshot, marks: set<RaidId>, id: RaidId, root: RaidId)
    requires RanOut(s, s1, marks + {id}, {}, root) && id in s.raids && RootOf(s.raids, id) == root
    ensures id in s1.raids && RootOf(s1.raids, id) == root && (forall now :: Reached(s1.raids, id, now) == Reached(s.raids, id, now))
    ensures s1.raids[id].children == s.raids[id].children && s1.raids[id].parent == s.raids[id].parent
    ensures |Unmarked(s1.raids, marks + {id})| <= |Unmarked(s.raids, marks + {id})|
  {
    hide Stretch, RootOf, Effect, Elsewhere, Newly;
    KeptUnderEffect(s.raids, s1.raids, marks + {id}, {}, id);
  }

  lemma LiveIsOld(s: Snapshot, s1: Snapshot, marks: set<RaidId>, root: RaidId, id: RaidId)
    requires RanOut(s, s1, marks, {}, root) && Live(s.raids, id) && id in marks
    ensures Live(s1.raids, id)
  {
    hide Stretch, Elsewhere, Caught;
    assert id in s.raids && id !in Newly(s.raids, s1.raids);
  }

  /** What a refresh of the ancestors leaves as it was. */
  lemma AfterRefresh(m: Raids, m': Raids, marks: set<RaidId>, x: RaidId)
    requires Refreshing(m, m')
    ensures (x in m <==> x in m') && RootOf(m', x) == RootOf(m, x) && (forall now :: Reached(m', x, now) == Reached(m, x, now))
    ensures |Unmarked(m', marks)| <= |Unmarked(m, marks)|
    ensures x in m ==> m'[x].children == m[x].children && m'[x].parent == m[x].parent
    ensures HasLiveChild(m', x) <==> HasLiveChild(m, x)
  {
    hide Stretch, Refreshing, Newly, Effect, Live;
    EffectOfRefreshing(m, m', marks);
    KeptUnderEffect(m, m', marks, {}, x);
  }

  lemma NewlyDead(m: Raids, m': Raids, id: RaidId)
    requires id in Newly(m, m')
    ensures !Live(m', id) && Live(m, id)
  {
  }

  lemma GrewNot(m: Raids, next: nat, root: RaidId, env: Environment)
    ensures Grew(m, m, next, next, root, env)
  {
  }

  predicate AllTerminal(m: Raids, id: RaidId)
    requires id in m
  {
    forall k :: 0 <= k < |m[id].children| ==> m[id].children[k] in m && Terminal(m[m[id].children[k]].status)
  }

  lemma AllTerminalDone(m: Raids, top: nat, id: RaidId, marks: set<RaidId>)
    requires WellFormed(m, top) && id in m
    ensures AllTerminal(m, id) ==> ChildrenDone(m, id, marks)
    ensures AllTerminal(m, id) <==> !HasLiveChild(m, id)
  {
    ChildKeys(m, top, id);
  }

  lemma LeafDone(m: Raids, id: RaidId, marks: set<RaidId>)
    requires id in m
    ensures m[id].children == [] ==> ChildrenDone(m, id, marks) && !HasLiveChild(m, id)
  {
  }

  /** A live child keeps all raids above alive when nothing is exposed. */
  lemma LiveChildAbove(m: Raids, top: nat, id: RaidId)
    requires WellFormed(m, top) && Guarded(m, {}) && HasLiveChild(m, id) && m[id].parent.Some?
    ensures HasLiveChild(m, m[id].parent.value)
  {
    assert NodeOk(m, top, id);
    var p := m[id].parent.value;
    var k: nat :| k < |m[id].children| && Live(m, m[id].children[k]);
    assert NodeOk(m, top, m[id].children[k]);
    assert Live(m, id);
    var j: nat :| j < |m[p].children| && m[p].children[j] == id;
  }

  lemma RevisionSound(s: Snapshot, m': Raids, next: nat, next': nat, id: RaidId, env: Environment, ch: Change,
                      books: map<RaidId, Books>, root: RaidId)
    requires Steady(s, next, {}, books, env) && Replanned(s.raids, m', next, next', id, env, ch) && RootOf(s.raids, id) == root
    ensures var m := s.raids;
            && id in m && m[id].planning.Some? && ch.gone <= |m[id].planning.value.available| && id in books
            && var books' := books[id := BooksAfter(books[id], env, m[id].planning.value.available, ch.gone, [(next, next')])];
            && Steady(s.(raids := m'), next', {}, books', env) && BooksExtend(books, books')
            && Grew(m, m', next, next', root, env) && next < next'
  {
    hide BooksOk, EnvironmentOk, Replanned, Guarded, WellFormed, PlansAtRoots, MarksOk, BooksExtend;
    RevisionBooks(s.raids, m', next, next', id, env, ch, books);
    RevisionGuarded(s.raids, m', next, next', id, env, ch, {} + s.refused);
    RevisionMarks(s.raids, m', next, next', id, env, ch, s.finalizing);
    RevisionMore(s.raids, m', next, next', id, env, ch);
    BooksAfterExtend(books, id, env, s.raids[id].planning.value.available, ch.gone, [(next, next')]);
  }

  lemma RevisionMore(m: Raids, m': Raids, next: nat, next': nat, id: RaidId, env: Environment, ch: Change)
    requires Replanned(m, m', next, next', id, env, ch)
    ensures next < next' && WellFormed(m', next')
  {
    hide Targeted, Took, Revises, MayReplan, AfterRevision, Mirrors, WellFormed, SelectedOf;
  }

  lemma DrainSound(s: Snapshot, m': Raids, next: nat, id: RaidId, env: Environment, gone: nat, books: map<RaidId, Books>,
                   marks: set<RaidId>, root: RaidId)
    requires Steady(s, next, marks, books, env) && PoolDrained(s.raids, m', id, env, gone) && s.raids[id].children != []
    requires RootOf(s.raids, id) == root
    ensures var m := s.raids;
            && id in books && id in m && m[id].planning.Some? && gone <= |m[id].planning.value.available|
            && var books' := books[id := BooksAfter(books[id], env, m[id].planning.value.available, gone, [])];
            && Steady(s.(raids := m'), next, marks, books', env) && BooksExtend(books, books')
            && Went(s, s.(raids := m'), marks, {}, root) && Newly(m, m') == {}
            && id in m' && m'[id].children == m[id].children && m'[id].parent == m[id].parent && RootOf(m', id) == root
            && (forall now :: Reached(m', id, now) == Reached(m, id, now))
            && |Unmarked(m', marks)| <= |Unmarked(m, marks)| && (HasLiveChild(m', id) <==> HasLiveChild(m, id))
  {
    hide BooksOk, EnvironmentOk, Stretch, Effect, Elsewhere, KnownOf, Guarded, Newly, UnknownOf, BooksExtend, WellFormed, PlansAtRoots;
    DrainBooks(s.raids, m', next, id, env, gone, books);
    DrainEffect(s.raids, m', next, id, env, gone, marks);
    EffectKeepsTree(s.raids, m', marks, {});
    KeptUnderEffect(s.raids, m', marks, {}, id);
    assert forall x :: Live(m', x) <==> Live(s.raids, x);
    GuardedStays(s.raids, m', marks + s.refused);
    RootsKept(s.raids, m');
    BooksAfterExtend(books, id, env, s.raids[id].planning.value.available, gone, []);
  }

  lemma DoneIn(m: Raids, id: RaidId, marks: set<RaidId>)
    requires ChildrenDone(m, id, marks)
    ensures id in m
  {
  }

  lemma NotReachedBefore(m: Raids, id: RaidId, before: int, now: int)
    requires !Reached(m, id, now) && before <= now
    ensures !Reached(m, id, before)
  {
  }

  lemma NewlyNone(m: Raids)
    ensures Newly(m, m) == {}
  {
  }

  lemma AfterAncestors(s: Snapshot, s': Snapshot, marks: set<RaidId>, id: RaidId, root: RaidId)
    requires RanOut(s, s', marks, {}, root)
    ensures (id in s.raids <==> id in s'.raids) && RootOf(s'.raids, id) == RootOf(s.raids, id)
    ensures forall now :: Reached(s'.raids, id, now) == Reached(s.raids, id, now)
    ensures |Unmarked(s'.raids, marks)| <= |Unmarked(s.raids, marks)|
  {
    hide Stretch, RootOf, Effect, Elsewhere, Newly;
    KeptUnderEffect(s.raids, s'.raids, marks, {}, id);
  }

  lemma LeafGathered(m: Raids, top: nat, id: RaidId)
    requires WellFormed(m, top) && id in m && m[id].children == []
    ensures Aggregation.Gathered(m, id)
  {
    LeafAlone(m, top, id);
    Aggregation.RefreshGathers(m, m, id);
  }

  lemma RefreshedWellFormed(m: Raids, m': Raids, top: nat)
    requires WellFormed(m, top) && Refreshing(m, m')
    ensures WellFormed(m', top)
  {
    hide NodeOk, WellFormed, Refreshing;
    RefreshingTree(m, m');
    WellFormedSameTree(m, m', top);
  }
}
