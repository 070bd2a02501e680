/** The orchestrator's finalization and expiry: mutually recursive, re-entrant, guarded by
    marks (apps/orchestrator/src/orchestrator-finalization.ts, raid-timers.ts). */
module Lifecycle {
  import opened Options
  import opened Sequences
  import opened RaidState
  import opened RaidTree
  import opened Adaptive
  import opened Replanning
  import opened Expiry
  import opened PlanBooks
  import opened Runs
  import opened Aggregation
  import opened Spawning
  import opened Steps
  import Planning
  import Cancellation

  datatype Event =
    | Wait(elapsed: nat)
    | Deadline(id: RaidId)
    | Abort(id: RaidId)
    | Query(id: RaidId)
    | Dispatch(id: RaidId, provider: ProviderId, runtimes: set<ProviderId>)
    | Invitation(id: RaidId, provider: ProviderId, recent: bool)
    | Acceptance(id: RaidId, provider: ProviderId, runId: string)
    | Beat(id: RaidId, provider: ProviderId, run: Option<string>)
    | TimeOut(id: RaidId, provider: ProviderId, runtimes: set<ProviderId>)
    | Failure(id: RaidId, provider: ProviderId, runtimes: set<ProviderId>)
    | Submission(id: RaidId, entry: Entry)
    | Start(id: RaidId)
    | ChildrenOver(id: RaidId)
    | Released(id: RaidId)
    | Single(deadline: int, task: Planning.Task, primaries: seq<ProviderId>, reserves: seq<ProviderId>)
    | Tree(deadline: int, task: Planning.Task, nodes: seq<Prepared>, pool: seq<ProviderId>)

  class Orchestrator {
    var raids: Raids
    var nextId: nat
    var expiring: set<RaidId>
    var finalizing: set<RaidId>
    /** The clock, in milliseconds, and whether it can move within a block of work. */
    var now: int
    const ticking: bool
    const env: Environment
    /** How often the deadline passed over each raid. */
    ghost var passes: multiset<RaidId>
    ghost var books: map<RaidId, Books>
    /** The raids whose finalization an expiry of this block was refused, as they were marked, and
        those that were live below a terminal raid when the block began. */
    ghost var refused: set<RaidId>
    /** The raids when it began, and the topmost one it can come to. */
    ghost var begun: Raids
    ghost var apex: RaidId
    /** All raids that an expiry of any step so far was refused to finalize. */
    ghost var refusals: set<RaidId>
    /** The raids that the current expiry has come to. */
    ghost var visited: set<RaidId>

    /** Time goes on whenever the clock is read. */
    method DeadlineReached(id: RaidId) returns (reached: bool)
      requires id in raids
      modifies this`now
      ensures now >= old(now) && (ticking || now == old(now)) && reached == Reached(raids, id, now)
    {
      var elapsed: int :| elapsed >= 0 && (ticking || elapsed == 0);
      now := now + elapsed;
      reached := raids[id].deadline * 1000 <= now;
    }

    /** `refreshRaidAncestry` */
    method RefreshAncestry(start: RaidId)
      requires WellFormed(raids, nextId) && start in raids
      modifies this`raids
      ensures Refreshing(old(raids), raids) && Elsewhere(old(raids), raids, RootOf(old(raids), start))
      ensures RefreshedBelow(raids, raids, RootOf(old(raids), start)) && Gathered(raids, RootOf(old(raids), start))
    {
      hide *;
      ghost var m := raids;
      ghost var root := RootOf(raids, start);
      RefreshingNothing(m, root);
      var current := Some(start);
      ghost var last := start;
      while current.Some?
        invariant WellFormed(raids, nextId) && Refreshing(m, raids) && Elsewhere(m, raids, root) && m == old(raids)
        invariant current.Some? ==> current.value in raids && RootOf(raids, current.value) == root
        invariant current.None? ==> RefreshedBelow(raids, raids, root)
        invariant root == RootOf(old(raids), start)
        decreases if current.Some? then current.value + 1 else 0
      {
        var id := current.value;
        ghost var m1 := raids;
        raids := RefreshParent(raids, nextId, id);
        RefreshStep(m, m1, raids, nextId, id, root);
        current := raids[id].parent;
      }
      RefreshGathers(raids, raids, root);
    }

    /** The loop over the selected providers. */
    method DisqualifyPass(r: Raid) returns (r': Raid)
      ensures r' == DisqualifyAll(r)
    {
      r' := r;
      for k := 0 to |r.selected|
        invariant r' == DisqualifySelected(r, k)
      {
        r' := Settle(r', r.selected[k], AssignmentStatus.Disqualified);
      }
    }

    /** `expireRaidAtDeadline` */
    method Expire(id: RaidId)
      requires Steady(Snapshot(raids, finalizing, passes, refused, visited), nextId, expiring, books, env)
      requires Track(Snapshot(raids, finalizing, passes, refused, visited), expiring)
      requires Reached(raids, id, now) && Within(raids, visited, begun, apex) && Near(raids, begun, apex, id)
      modifies this`raids, this`nextId, this`expiring, this`finalizing, this`now, this`passes, this`books, this`refused, this`visited,
               this`begun, this`apex
      ensures Steady(Snapshot(raids, finalizing, passes, refused, visited), nextId, expiring, books, env)
      ensures Track(Snapshot(raids, finalizing, passes, refused, visited), expiring)
      ensures expiring == old(expiring) && nextId == old(nextId) && books == old(books) && now >= old(now) && (ticking || now == old(now))
      ensures RanOut(old(Snapshot(raids, finalizing, passes, refused, visited)),
                     Snapshot(raids, finalizing, passes, refused, visited), expiring, {}, RootOf(old(raids), id))
      ensures Seen(Snapshot(raids, finalizing, passes, refused, visited), id) && Within(raids, visited, begun, apex) && begun == old(begun)
      ensures apex == old(apex)
      ensures !old(Live(raids, id)) ==>
                raids == old(raids) && finalizing == old(finalizing) && passes == old(passes) && refused == old(refused)
      ensures old(Gathered(raids, RootOf(raids, id)) || (Live(raids, id) && id !in expiring)) ==> Gathered(raids, RootOf(old(raids), id))
      decreases |Unmarked(raids, expiring)|, 0, 0
    {
      hide *;
      ReachedIn(raids, id, now);
      LiveIs(raids, id);
      ghost var root := RootOf(raids, id);
      ghost var s := Snapshot(raids, finalizing, passes, refused, visited);
      if Terminal(raids[id].status) || id in expiring {
        RanNothing(s, expiring, root);
        SeenAlready(s, expiring, id);
        return;
      }
      ghost var marks := expiring;
      Enters(s, nextId, expiring, books, env, id, root);
      WithinEnters(raids, visited, begun, apex, id);
      expiring := expiring + {id};
      visited := visited + {id};
      ghost var s0 := Snapshot(raids, finalizing, passes, refused, visited);
      var children := raids[id].children;
      ExpireChildren(id, children);
      ghost var s1 := Snapshot(raids, finalizing, passes, refused, visited);
      AfterChildren(s0, s1, marks, id, root);
      LiveIsOld(s0, s1, expiring, root, id);
      ReachedLater(raids, id, old(now), now);
      RanOutFacts(s0, s1, expiring, {}, root);
      ghost var s2 := PassOver(id);
      ghost var s3 := Snapshot(raids, finalizing, passes, refused, visited);
      LiveIsOld(s2, s3, expiring, root, id);
      SeenDone(s3, expiring, id);
      ReachedLater(raids, id, old(now), now);
      WasCaught(s0, s1, s2, s3, nextId, expiring, books, env, id, root);
      ghost var before := Finalize(id);
      ExpiryEnds(s, s1, s2, s3, Snapshot(raids, finalizing, passes, refused, visited), nextId, marks, books, env, id, root);
      expiring := expiring - {id};
      assert expiring == marks;
    }

    /** The pass over the raid itself, and then its ancestors; in between is `s2`. */
    method PassOver(id: RaidId) returns (ghost s2: Snapshot)
      requires Steady(Snapshot(raids, finalizing, passes, refused, visited), nextId, expiring, books, env)
      requires Track(Snapshot(raids, finalizing, passes, refused, visited), expiring) && expiring != {}
      requires id in raids && Reached(raids, id, now) && id in visited && Within(raids, visited, begun, apex)
      requires forall j :: 0 <= j < |raids[id].children| ==> Seen(Snapshot(raids, finalizing, passes, refused, visited), raids[id].children[j])
      modifies this`raids, this`nextId, this`expiring, this`finalizing, this`now, this`passes, this`books, this`refused, this`visited,
               this`begun, this`apex
      ensures Steady(Snapshot(raids, finalizing, passes, refused, visited), nextId, expiring, books, env)
      ensures Track(Snapshot(raids, finalizing, passes, refused, visited), expiring) && Within(raids, visited, begun, apex)
      ensures begun == old(begun) && apex == old(apex)
      ensures expiring == old(expiring) && nextId == old(nextId) && books == old(books) && now >= old(now) && (ticking || now == old(now))
      ensures s2 == Snapshot(old(raids)[id := DisqualifyAll(old(raids)[id])], old(finalizing), old(passes) + multiset{id},
                             old(refused), old(visited))
      ensures RanOut(s2, Snapshot(raids, finalizing, passes, refused, visited), expiring, {}, RootOf(old(raids), id))
      ensures (Live(s2.raids, id) <==> old(Live(raids, id)))
      ensures id in raids && RootOf(raids, id) == RootOf(old(raids), id)
      ensures (forall t :: Reached(raids, id, t) == Reached(old(raids), id, t))
      ensures raids[id].children == old(raids)[id].children && raids[id].parent == old(raids)[id].parent
      ensures |Unmarked(raids, expiring)| <= old(|Unmarked(raids, expiring)|)
      ensures forall j :: 0 <= j < |raids[id].children| ==> Seen(Snapshot(raids, finalizing, passes, refused, visited), raids[id].children[j])
      ensures raids[id].parent.Some? ==>
                && Seen(Snapshot(raids, finalizing, passes, refused, visited), raids[id].parent.value)
                && Gathered(raids, RootOf(old(raids), id))
      decreases |Unmarked(raids, expiring)|, id + 1, 0
    {
      hide *;
      ghost var s1 := Snapshot(raids, finalizing, passes, refused, visited);
      ghost var root := RootOf(raids, id);
      var r := DisqualifyPass(raids[id]);
      PassSound(s1, nextId, expiring, books, env, id);
      raids := raids[id := r];
      passes := passes + multiset{id};
      s2 := Snapshot(raids, finalizing, passes, refused, visited);
      WithinStays(s1.raids, raids, visited, begun, apex);
      RanNothing(s2, expiring, root);
      SteadyFacts(s2, nextId, expiring, books, env);
      NearNeighbours(raids, nextId, visited, begun, apex, id);
      Neighbours(raids, nextId, id, now);
      var parent := raids[id].parent;
      if parent.Some? {
        ghost var before := RefreshAbove(id, parent.value);
      }
      StillSeen(s2, Snapshot(raids, finalizing, passes, refused, visited), expiring, {}, root);
      AfterAncestors(s2, Snapshot(raids, finalizing, passes, refused, visited), expiring, id, root);
      RanOutFacts(s2, Snapshot(raids, finalizing, passes, refused, visited), expiring, {}, root);
      KeptUnderEffect(s2.raids, raids, expiring, {}, id);
    }

    /** The loop over the children. */
    method ExpireChildren(id: RaidId, children: seq<RaidId>)
      requires Steady(Snapshot(raids, finalizing, passes, refused, visited), nextId, expiring, books, env)
      requires Track(Snapshot(raids, finalizing, passes, refused, visited), expiring)
      requires Reached(raids, id, now) && id in raids && raids[id].children == children && id in visited
      requires Within(raids, visited, begun, apex)
      modifies this`raids, this`nextId, this`expiring, this`finalizing, this`now, this`passes, this`books, this`refused, this`visited,
               this`begun, this`apex
      ensures Steady(Snapshot(raids, finalizing, passes, refused, visited), nextId, expiring, books, env)
      ensures Track(Snapshot(raids, finalizing, passes, refused, visited), expiring)
      ensures expiring == old(expiring) && nextId == old(nextId) && books == old(books) && now >= old(now) && (ticking || now == old(now))
      ensures RanOut(old(Snapshot(raids, finalizing, passes, refused, visited)),
                     Snapshot(raids, finalizing, passes, refused, visited), expiring, {}, RootOf(old(raids), id))
      ensures forall j :: 0 <= j < |children| ==> Seen(Snapshot(raids, finalizing, passes, refused, visited), children[j])
      ensures Within(raids, visited, begun, apex) && begun == old(begun) && apex == old(apex)
      decreases |Unmarked(raids, expiring)|, 0, 1
    {
      hide *;
      ghost var s := Snapshot(raids, finalizing, passes, refused, visited);
      ghost var root := RootOf(raids, id);
      RanNothing(s, expiring, root);
      SteadyFacts(s, nextId, expiring, books, env);
      NearNeighbours(raids, nextId, visited, begun, apex, id);
      for k := 0 to |children|
        invariant expiring == old(expiring) && nextId == old(nextId) && books == old(books) && now >= old(now)
        invariant (ticking || now == old(now))
        invariant Steady(Snapshot(raids, finalizing, passes, refused, visited), nextId, expiring, books, env)
        invariant Track(Snapshot(raids, finalizing, passes, refused, visited), expiring)
        invariant RanOut(s, Snapshot(raids, finalizing, passes, refused, visited), expiring, {}, root)
        invariant Within(raids, visited, begun, apex) && begun == old(begun) && apex == old(apex)
        invariant forall j :: 0 <= j < k ==> Seen(Snapshot(raids, finalizing, passes, refused, visited), children[j])
      {
        ghost var s1 := Snapshot(raids, finalizing, passes, refused, visited);
        NextChild(s, s1, nextId, expiring, id, k, root, old(now), now);
        LiveIs(raids, children[k]);
        SeenIs(s1, children[k]);
        if !Terminal(raids[children[k]].status) {
          RanOutFacts(s, s1, expiring, {}, root);
          CaughtStays(s, s1, expiring, {}, root);
          NearLater(s.raids, raids, begun, apex, children[k]);
          Expire(children[k]);
          RanOn(s, s1, Snapshot(raids, finalizing, passes, refused, visited), expiring, root);
          StillSeen(s1, Snapshot(raids, finalizing, passes, refused, visited), expiring, {}, root);
        }
      }
    }

    /** `finalizeRaid` up to its first pause; the mark in `finalizing` is given up later on. A
        raid that is still marked is left alone. `before` is the tree before a revision above, if
        there was one. */
    method Finalize(id: RaidId) returns (ghost before: Raids)
      requires Steady(Snapshot(raids, finalizing, passes, refused, visited), nextId, expiring, books, env)
      requires ChildrenDone(raids, id, expiring + refused)
      requires expiring != {} ==>
                 && Reached(raids, id, now) && Track(Snapshot(raids, finalizing, passes, refused, visited), expiring) && id in expiring
                 && Within(raids, visited, begun, apex)
      modifies this`raids, this`nextId, this`expiring, this`finalizing, this`now, this`passes, this`books, this`refused, this`visited,
               this`begun, this`apex
      ensures Steady(Snapshot(raids, finalizing, passes, refused, visited), nextId, expiring, books, env) && expiring == old(expiring)
      ensures BooksExtend(old(books), books) && now >= old(now) && (ticking || now == old(now))
      ensures Grew(before, raids, old(nextId), nextId, RootOf(old(raids), id), env)
      ensures if old(Live(raids, id) && id !in finalizing)
              then Went(old(Snapshot(raids, finalizing, passes, refused, visited)),
                        Snapshot(before, finalizing, passes, refused, visited), expiring, {id}, RootOf(old(raids), id)) && id in Newly(old(raids), before)
              else && raids == before == old(raids) && finalizing == old(finalizing) && passes == old(passes)
                   && nextId == old(nextId) && books == old(books) && visited == old(visited)
                   && refused == old(refused) + (if old(Live(raids, id) && expiring != {}) then {id} else {})
      ensures old(Live(raids, id) && id !in finalizing) && old(raids)[id].children == [] ==>
                id in raids && EndsFinal(old(raids)[id], raids[id]) && raids[id].assignments == old(raids)[id].assignments
      ensures old(Live(raids, id) && id !in finalizing) && old(raids)[id].parent.None? ==>
                id in raids && raids[id].status == Final && PrimaryIsBest(raids[id]) && Gathered(raids, id)
      ensures old(Reached(raids, id, now)) ==> before == raids && nextId == old(nextId) && books == old(books)
      ensures refused == old(refused) || Reached(raids, id, now)
      ensures old(expiring != {}) ==>
                && Track(Snapshot(raids, finalizing, passes, refused, visited), expiring) && Within(raids, visited, begun, apex)
                && begun == old(begun) && apex == old(apex)
      ensures old(expiring != {} && Live(raids, id)) ==>
                RanOut(old(Snapshot(raids, finalizing, passes, refused, visited)),
                       Snapshot(raids, finalizing, passes, refused, visited), expiring, {id}, RootOf(old(raids), id))
      ensures old(expiring != {} && (Gathered(raids, RootOf(raids, id)) || (Live(raids, id) && id !in finalizing))) ==>
                Gathered(raids, RootOf(old(raids), id))
      ensures old(expiring == {} && Live(raids, id)) && nextId == old(nextId) && refused == {} ==> NoneReady(raids, finalizing, id)
      ensures old(expiring == {} && Live(raids, id) && id !in finalizing && id in raids && raids[id].parent.Some?)
              && !Reached(old(raids), id, now) ==>
                ParentRevising(old(raids), old(finalizing), raids, finalizing, old(nextId), nextId, id, old(raids)[id].parent.value, env)
      decreases |Unmarked(raids, expiring)|, id + 1, 0
    {
      hide *;
      ghost var s := Snapshot(raids, finalizing, passes, refused, visited);
      ghost var root := RootOf(raids, id);
      DoneIn(raids, id, expiring + refused);
      LiveIs(raids, id);
      GrewNot(raids, nextId, root, env);
      BooksExtendSelf(books);
      if Terminal(raids[id].status) {
        before := raids;
        assert refused == old(refused) + {};
        return;
      }
      if id in finalizing {
        before := raids;
        if expiring != {} {
          RefusedRan(s, nextId, expiring, books, env, id, root);
          refused := refused + {id};
        } else if refused == {} {
          Unexposed(s, nextId, books, env);
          NoneReadyMarked(raids, nextId, finalizing, id);
        }
        return;
      }
      finalizing := finalizing + {id};
      RefreshingNothing(raids, root);
      SteadyFacts(s, nextId, expiring, books, env);
      if raids[id].children != [] {
        raids := RefreshParent(raids, nextId, id);
        RefreshIsRefreshing(s.raids, raids, id);
        RefreshElsewhere(s.raids, raids, id);
        RefreshGathers(s.raids, raids, id);
      } else {
        LeafGathered(raids, nextId, id);
      }
      ghost var m1 := raids;
      AfterRefresh(s.raids, m1, expiring, id);
      RecordSound(s, m1, nextId, expiring, books, env, id, root);
      RefreshedWellFormed(s.raids, m1, nextId);
      FinalizeKeepsGathered(m1, nextId, id);
      RootFinal(m1, id);
      raids := raids[id := FinalizeRecord(raids[id])];
      ghost var s2 := Snapshot(raids, finalizing, passes, refused, visited);
      RanNothing(s2, expiring, root);
      GrewNot(raids, nextId, root, env);
      SteadyFacts(s2, nextId, expiring, books, env);
      Neighbours(raids, nextId, id, now);
      if expiring != {} {
        TrackHas(s, expiring);
        WithinStays(s.raids, raids, visited, begun, apex);
        NearNeighbours(raids, nextId, visited, begun, apex, id);
      }
      if raids[id].parent.Some? {
        var p := raids[id].parent.value;
        if expiring == {} && refused == {} {
          Unexposed(s, nextId, books, env);
          LiveAbove(s.raids, nextId, id);
          RefreshingLive(s.raids, m1, p);
          RecordedLive(m1, id, raids[id], p);
        }
        before := RefreshAbove(id, p);
        if expiring == {} && !Reached(s.raids, id, now) {
          ParentRevised(s.raids, m1, s.finalizing, raids, finalizing, old(nextId), nextId, id, p, env);
        }
      } else {
        before := raids;
        RootItself(raids, id);
      }
      TrackHas(s, expiring);
      FinalizationRan(s, m1, s2, Snapshot(before, finalizing, passes, refused, visited), expiring, id, root);
      if s.raids[id].children == [] {
        LeafFinalized(s, Snapshot(before, finalizing, passes, refused, visited), raids, old(nextId), nextId, expiring, root, env, id);
      }
      if expiring == {} && nextId == old(nextId) && refused == {} {
        GrewSame(before, raids, nextId, root, env);
        NewlyDead(s.raids, before, id);
        WentTree(s, Snapshot(before, finalizing, passes, refused, visited), expiring, {id}, root, id);
        SteadyFacts(Snapshot(raids, finalizing, passes, refused, visited), nextId, expiring, books, env);
        NoneReadyUp(raids, nextId, finalizing, id);
      }
    }

    /** The ancestors of `id` are refreshed and its parent `p` is looked at. */
    method RefreshAbove(id: RaidId, p: RaidId) returns (ghost before: Raids)
      requires Steady(Snapshot(raids, finalizing, passes, refused, visited), nextId, expiring, books, env) && id in raids
      requires raids[id].parent == Some(p) && p in raids && p < id
      requires expiring != {} ==>
                 && Reached(raids, id, now) && Track(Snapshot(raids, finalizing, passes, refused, visited), expiring)
                 && Within(raids, visited, begun, apex) && Near(raids, begun, apex, p)
      modifies this`raids, this`nextId, this`expiring, this`finalizing, this`now, this`passes, this`books, this`refused, this`visited,
               this`begun, this`apex
      ensures Steady(Snapshot(raids, finalizing, passes, refused, visited), nextId, expiring, books, env) && expiring == old(expiring)
      ensures BooksExtend(old(books), books) && now >= old(now) && (ticking || now == old(now))
      ensures Grew(before, raids, old(nextId), nextId, RootOf(old(raids), id), env)
      ensures Went(old(Snapshot(raids, finalizing, passes, refused, visited)),
                   Snapshot(before, finalizing, passes, refused, visited), expiring, {}, RootOf(old(raids), id))
      ensures old(expiring == {} && Live(raids, p)) && nextId == old(nextId) && refused == {} ==> NoneReady(raids, finalizing, p)
      ensures old(expiring == {} && HasLiveChild(raids, p)) && refused == {} ==>
                || Newly(old(raids), before) == {}
                || (nextId == old(nextId) && TreeDead(raids, RootOf(old(raids), id)))
      ensures old(Reached(raids, id, now)) ==> before == raids && nextId == old(nextId) && books == old(books)
      ensures refused == old(refused) || Reached(raids, id, now)
      ensures refused >= old(refused)
      ensures old(expiring == {}) && !Reached(old(raids), id, now) ==>
                Revising(old(raids), old(finalizing), raids, finalizing, old(nextId), nextId, p, env)
      ensures old(expiring != {}) ==>
                && Track(Snapshot(raids, finalizing, passes, refused, visited), expiring)
                && Seen(Snapshot(raids, finalizing, passes, refused, visited), p) && Within(raids, visited, begun, apex)
                && begun == old(begun) && apex == old(apex)
                && RanOut(old(Snapshot(raids, finalizing, passes, refused, visited)),
                          Snapshot(raids, finalizing, passes, refused, visited), expiring, {}, RootOf(old(raids), id))
                && Gathered(raids, RootOf(old(raids), id))
      decreases |Unmarked(raids, expiring)|, p + 1, 3
    {
      hide *;
      ghost var s := Snapshot(raids, finalizing, passes, refused, visited);
      ghost var root := RootOf(raids, id);
      SteadyFacts(s, nextId, expiring, books, env);
      Neighbours(raids, nextId, id, now);
      RefreshAncestry(p);
      RefreshingLive(s.raids, raids, p);
      RefreshRan(s, raids, nextId, expiring, books, env, root);
      if expiring != {} {
        RefreshingTree(s.raids, raids);
        WithinStays(s.raids, raids, visited, begun, apex);
        NearLater(s.raids, raids, begun, apex, p);
      }
      ghost var s1 := Snapshot(raids, finalizing, passes, refused, visited);
      AfterRefresh(s.raids, raids, expiring, p);
      AfterRefresh(s.raids, raids, expiring, id);
      ReachedAlike(raids, nextId, expiring, books, env, s1, p, id);
      before := MaybeFinalize(p);
      WentFacts(s1, Snapshot(before, finalizing, passes, refused, visited), expiring, {}, root);
      WentOn(s, s1, Snapshot(before, finalizing, passes, refused, visited), expiring, root);
      if old(expiring) != {} {
        RanOn(s, s1, Snapshot(raids, finalizing, passes, refused, visited), expiring, root);
      }
      GrewReached(s1, Snapshot(before, finalizing, passes, refused, visited), raids, expiring, old(nextId), nextId, root, env, p);
      GrewReached(s1, Snapshot(before, finalizing, passes, refused, visited), raids, expiring, old(nextId), nextId, root, env, id);
      if old(expiring) == {} && !Reached(s.raids, id, now) {
        RevisingOn(s.raids, s1.raids, s.finalizing, raids, finalizing, old(nextId), nextId, p, env);
      }
    }

    /** `maybeFinalizeAfterUpdate` */
    method MaybeFinalize(id: RaidId) returns (ghost before: Raids)
      requires Steady(Snapshot(raids, finalizing, passes, refused, visited), nextId, expiring, books, env) && id in raids
      requires expiring != {} ==>
                 && Reached(raids, id, now) && Track(Snapshot(raids, finalizing, passes, refused, visited), expiring)
                 && Within(raids, visited, begun, apex) && Near(raids, begun, apex, id)
      modifies this`raids, this`nextId, this`expiring, this`finalizing, this`now, this`passes, this`books, this`refused, this`visited,
               this`begun, this`apex
      ensures Steady(Snapshot(raids, finalizing, passes, refused, visited), nextId, expiring, books, env) && expiring == old(expiring)
      ensures BooksExtend(old(books), books) && now >= old(now) && (ticking || now == old(now))
      ensures Grew(before, raids, old(nextId), nextId, RootOf(old(raids), id), env)
      ensures Went(old(Snapshot(raids, finalizing, passes, refused, visited)),
                   Snapshot(before, finalizing, passes, refused, visited), expiring, {}, RootOf(old(raids), id))
      ensures old(expiring == {} && HasLiveChild(raids, id)) && refused == {} ==>
                || Newly(old(raids), before) == {}
                || (nextId == old(nextId) && TreeDead(raids, RootOf(old(raids), id)))
      ensures old(expiring == {} && (Live(raids, id) || NoneReady(raids, finalizing, id))) && nextId == old(nextId) && refused == {} ==>
                NoneReady(raids, finalizing, id)
      ensures old(Reached(raids, id, now)) ==> before == raids && nextId == old(nextId) && books == old(books)
      ensures refused == old(refused) || Reached(raids, id, now)
      ensures old(expiring != {}) ==>
                && Track(Snapshot(raids, finalizing, passes, refused, visited), expiring)
                && Seen(Snapshot(raids, finalizing, passes, refused, visited), id) && Within(raids, visited, begun, apex)
                && begun == old(begun) && apex == old(apex)
                && RanOut(old(Snapshot(raids, finalizing, passes, refused, visited)),
                          Snapshot(raids, finalizing, passes, refused, visited), expiring, {}, RootOf(old(raids), id))
                && (old(Gathered(raids, RootOf(raids, id))) ==> Gathered(raids, RootOf(old(raids), id)))
      ensures old(expiring == {} && raids[id].children != []) && !Reached(old(raids), id, now) ==>
                Revising(old(raids), old(finalizing), raids, finalizing, old(nextId), nextId, id, env)
      decreases |Unmarked(raids, expiring)|, id + 1, 2
    {
      hide *;
      ghost var s := Snapshot(raids, finalizing, passes, refused, visited);
      ghost var root := RootOf(raids, id);
      GrewNot(raids, nextId, root, env);
      BooksExtendSelf(books);
      var reached := DeadlineReached(id);
      if reached {
        ghost var due := now;
        before := ExpireFrom(id);
        ReachedLater(s.raids, id, due, now);
        GrewNot(raids, nextId, root, env);
        NewlyNone(raids);
        if TreeDead(raids, RootOf(raids, id)) {
          NoneReadyDead(raids, finalizing, id);
        }
        return;
      }
      NotReachedBefore(raids, id, old(now), now);
      assert expiring == {};
      RanNothing(s, expiring, root);
      NewlyNone(raids);
      ghost var m1, could, due := raids, false, now;
      if raids[id].children != [] {
        SteadyFacts(s, nextId, expiring, books, env);
        raids := RefreshParent(raids, nextId, id);
        RefreshIsRefreshing(s.raids, raids, id);
        RefreshElsewhere(s.raids, raids, id);
        RefreshRan(s, raids, nextId, expiring, books, env, root);
        AfterRefresh(s.raids, raids, expiring, id);
        ghost var s1 := Snapshot(raids, finalizing, passes, refused, visited);
        m1, could := raids, CanReplan(raids, id, env, false);
        PlanAllows(raids, id, env);
        if raids[id].planning.Some? {
          before := raids;
          var done := TryReplan(id);
          due := now;
          if done {
            ghost var ch :| Replanned(m1, raids, old(nextId), nextId, id, env, ch);
            RevisedNow(s.raids, m1, finalizing, raids, old(nextId), nextId, id, env, ch);
            return;
          }
          WentOn(s, s1, Snapshot(raids, finalizing, passes, refused, visited), expiring, root);
        }
      }
      ghost var s2 := Snapshot(raids, finalizing, passes, refused, visited);
      ghost var books2 := books;
      LivesAsBefore(s, s2, expiring, root, id);
      SteadyFacts(s2, nextId, expiring, books, env);
      NoneReadyStays(s, s2, nextId, expiring, root, id);
      before := LookOn(id);
      BooksExtendOn(old(books), books2, books);
      WentOn(s, s2, Snapshot(before, finalizing, passes, refused, visited), expiring, root);
      if s.raids[id].children != [] && !Reached(s.raids, id, now) {
        NotReachedBefore(s.raids, id, due, now);
        NotRevised(s.raids, m1, s.finalizing, raids, finalizing, old(nextId), nextId, id, env);
      }
    }

    /** The rest of it: the raid is finalized if it is ready, or its parent is looked at. */
    method LookOn(id: RaidId) returns (ghost before: Raids)
      requires Steady(Snapshot(raids, finalizing, passes, refused, visited), nextId, {}, books, env) && id in raids && expiring == {}
      modifies this`raids, this`nextId, this`expiring, this`finalizing, this`now, this`passes, this`books, this`refused, this`visited,
               this`begun, this`apex
      ensures Steady(Snapshot(raids, finalizing, passes, refused, visited), nextId, {}, books, env) && expiring == {}
      ensures BooksExtend(old(books), books) && now >= old(now) && (ticking || now == old(now))
      ensures Grew(before, raids, old(nextId), nextId, RootOf(old(raids), id), env)
      ensures Went(old(Snapshot(raids, finalizing, passes, refused, visited)),
                   Snapshot(before, finalizing, passes, refused, visited), {}, {}, RootOf(old(raids), id))
      ensures old(HasLiveChild(raids, id)) && refused == {} ==>
                || Newly(old(raids), before) == {}
                || (nextId == old(nextId) && TreeDead(raids, RootOf(old(raids), id)))
      ensures old(Live(raids, id) || NoneReady(raids, finalizing, id)) && nextId == old(nextId) && refused == {} ==>
                NoneReady(raids, finalizing, id)
      ensures refused == old(refused) || Reached(raids, id, now)
      decreases |Unmarked(raids, expiring)|, id + 1, 1
    {
      hide *;
      ghost var s := Snapshot(raids, finalizing, passes, refused, visited);
      ghost var root := RootOf(raids, id);
      GrewNot(raids, nextId, root, env);
      SteadyFacts(s, nextId, {}, books, env);
      AllTerminalDone(raids, nextId, id, {} + refused);
      LeafDone(raids, id, {} + refused);
      Neighbours(raids, nextId, id, now);
      ReadyIs(raids, id);
      ChildrenIn(raids, nextId, id);
      if if raids[id].children != [] then AllTerminal(raids, id) else ShouldFinalize(raids[id]) {
        before := Finalize(id);
        if Live(s.raids, id) && id !in s.finalizing {
          OwnWent(s, Snapshot(before, finalizing, passes, refused, visited), {}, id, root);
        } else {
          assert refused == s.refused;
          RanNothing(s, {}, root);
          NewlyNone(raids);
        }
        return;
      }
      if raids[id].parent.Some? {
        before := LookAbove(id, raids[id].parent.value);
      } else {
        before := raids;
        RanNothing(s, {}, root);
        NewlyNone(raids);
        BooksExtendSelf(books);
      }
      if nextId == old(nextId) && refused == {} {
        GrewSame(before, raids, nextId, root, env);
        ghost var s3 := Snapshot(raids, finalizing, passes, refused, visited);
        WentTree(s, s3, {}, {}, root, id);
        SteadyFacts(s3, nextId, {}, books, env);
        if Live(s.raids, id) {
          if Newly(s.raids, raids) == {} {
            StillUnready(s, s3, {}, root, id);
            NoneReadyUp(raids, nextId, finalizing, id);
          } else {
            NoneReadyDead(raids, finalizing, id);
          }
        } else if NoneReady(s.raids, s.finalizing, id) {
          NoneReadyUp(raids, nextId, finalizing, id);
        }
      }
    }

    /** The parent `p` of `id` is looked at. */
    method LookAbove(id: RaidId, p: RaidId) returns (ghost before: Raids)
      requires Steady(Snapshot(raids, finalizing, passes, refused, visited), nextId, {}, books, env) && id in raids && expiring == {}
      requires raids[id].parent == Some(p) && p in raids && p < id
      modifies this`raids, this`nextId, this`expiring, this`finalizing, this`now, this`passes, this`books, this`refused, this`visited,
               this`begun, this`apex
      ensures Steady(Snapshot(raids, finalizing, passes, refused, visited), nextId, {}, books, env) && expiring == {}
      ensures BooksExtend(old(books), books) && now >= old(now) && (ticking || now == old(now))
      ensures Grew(before, raids, old(nextId), nextId, RootOf(old(raids), id), env)
      ensures Went(old(Snapshot(raids, finalizing, passes, refused, visited)),
                   Snapshot(before, finalizing, passes, refused, visited), {}, {}, RootOf(old(raids), id))
      ensures old(Live(raids, id) || HasLiveChild(raids, id)) && refused == {} ==>
                || Newly(old(raids), before) == {}
                || (nextId == old(nextId) && TreeDead(raids, RootOf(old(raids), id)))
      ensures old(Live(raids, id) || NoneReady(raids, finalizing, id)) && nextId == old(nextId) && refused == {} ==>
                NoneReady(raids, finalizing, p)
      ensures refused == old(refused) || Reached(raids, id, now)
      decreases |Unmarked(raids, expiring)|, p + 1, 3
    {
      hide *;
      ghost var s := Snapshot(raids, finalizing, passes, refused, visited);
      ghost var root := RootOf(raids, id);
      SteadyFacts(s, nextId, {}, books, env);
      Neighbours(raids, nextId, id, now);
      if refused == {} {
        Unexposed(s, nextId, books, env);
        if HasLiveChild(raids, id) {
          LiveChildAbove(raids, nextId, id);
        }
        if Live(raids, id) {
          LiveAbove(raids, nextId, id);
          LiveChildOf(raids, nextId, p, id);
        }
      }
      NoneReadyParent(raids, nextId, finalizing, id);
      ReachedAlike(raids, nextId, {}, books, env, s, p, id);
      before := MaybeFinalize(p);
      WentFacts(s, Snapshot(before, finalizing, passes, refused, visited), {}, {}, root);
      GrewReached(s, Snapshot(before, finalizing, passes, refused, visited), raids, {}, old(nextId), nextId, root, env, p);
      GrewReached(s, Snapshot(before, finalizing, passes, refused, visited), raids, {}, old(nextId), nextId, root, env, id);
    }

    /** The deadline was found to have passed. */
    method ExpireFrom(id: RaidId) returns (ghost before: Raids)
      requires Steady(Snapshot(raids, finalizing, passes, refused, visited), nextId, expiring, books, env) && Reached(raids, id, now)
      requires expiring != {} ==>
                 && Track(Snapshot(raids, finalizing, passes, refused, visited), expiring) && Within(raids, visited, begun, apex)
                 && Near(raids, begun, apex, id)
      modifies this`raids, this`nextId, this`expiring, this`finalizing, this`now, this`passes, this`books, this`refused, this`visited,
               this`begun, this`apex
      ensures Steady(Snapshot(raids, finalizing, passes, refused, visited), nextId, expiring, books, env) && expiring == old(expiring)
      ensures now >= old(now) && (ticking || now == old(now))
      ensures before == raids && nextId == old(nextId) && books == old(books) && Reached(raids, id, now)
      ensures Went(old(Snapshot(raids, finalizing, passes, refused, visited)),
                   Snapshot(raids, finalizing, passes, refused, visited), expiring, {}, RootOf(old(raids), id))
      ensures old(expiring == {} && Live(raids, id)) && refused == {} ==>
                TreeDead(raids, RootOf(old(raids), id)) && TreeDead(raids, RootOf(raids, id))
      ensures !old(Live(raids, id)) ==> raids == old(raids) && finalizing == old(finalizing) && refused == old(refused)
      ensures old(expiring != {}) ==>
                && Track(Snapshot(raids, finalizing, passes, refused, visited), expiring)
                && Seen(Snapshot(raids, finalizing, passes, refused, visited), id) && Within(raids, visited, begun, apex)
                && begun == old(begun) && apex == old(apex)
                && RanOut(old(Snapshot(raids, finalizing, passes, refused, visited)),
                          Snapshot(raids, finalizing, passes, refused, visited), expiring, {}, RootOf(old(raids), id))
                && (old(Gathered(raids, RootOf(raids, id))) ==> Gathered(raids, RootOf(old(raids), id)))
      decreases |Unmarked(raids, expiring)|, 0, 1
    {
      hide *;
      ghost var s := Snapshot(raids, finalizing, passes, refused, visited);
      ghost var root := RootOf(raids, id);
      ReachedIn(raids, id, now);
      if expiring == {} {
        Forgets(s, nextId, books, env);
        visited, begun, apex := {}, raids, TopOf(raids, id);
        WithinStarts(raids, id);
      }
      ghost var s0 := Snapshot(raids, finalizing, passes, refused, visited);
      ghost var begun := visited;
      Expire(id);
      before := raids;
      RanOutWent(s0, Snapshot(raids, finalizing, passes, refused, visited), expiring, root);
      WentForgets(s, Snapshot(raids, finalizing, passes, refused, visited), expiring, {}, root, begun);
      RanOutFacts(s0, Snapshot(raids, finalizing, passes, refused, visited), expiring, {}, root);
      KeptUnderEffect(s0.raids, raids, expiring, {}, id);
      ReachedLater(raids, id, old(now), now);
      if expiring == {} && refused == {} && Live(s0.raids, id) {
        Unexposed(s, nextId, books, env);
        SteadyFacts(s, nextId, {}, books, env);
        ExpiryDead(s0, Snapshot(raids, finalizing, passes, refused, visited), nextId, id, root);
      }
    }

    /** The call of `maybeReplanHierarchicalRaid` for an inner raid: one revision if the plan allows
        it; otherwise at most providers that are not registered leave its pool. */
    method TryReplan(id: RaidId) returns (done: bool)
      requires Steady(Snapshot(raids, finalizing, passes, refused, visited), nextId, {}, books, env) && id in raids
      requires raids[id].children != []
      modifies this`raids, this`nextId, this`now, this`books
      ensures Steady(Snapshot(raids, finalizing, passes, refused, visited), nextId, {}, books, env)
      ensures BooksExtend(old(books), books) && now >= old(now) && (ticking || now == old(now))
      ensures if done then CanReplan(old(raids), id, env, false)
              else Reached(old(raids), id, now) || !CanReplan(old(raids), id, env, false)
      ensures done ==> nextId > old(nextId) && exists ch :: Replanned(old(raids), raids, old(nextId), nextId, id, env, ch)
      ensures done ==> Grew(old(raids), raids, old(nextId), nextId, RootOf(old(raids), id), env) && !old(Reached(raids, id, now))
      ensures !done ==> raids == old(raids) || exists gone: nat :: PoolDrained(old(raids), raids, id, env, gone)
      ensures !done ==>
                && nextId == old(nextId)
                && Went(old(Snapshot(raids, finalizing, passes, refused, visited)),
                        Snapshot(raids, finalizing, passes, refused, visited), {}, {}, RootOf(old(raids), id))
                && Newly(old(raids), raids) == {} && id in raids && raids[id].children == old(raids)[id].children
                && RootOf(raids, id) == RootOf(old(raids), id) && raids[id].parent == old(raids)[id].parent
                && (forall t :: Reached(raids, id, t) == Reached(old(raids), id, t))
                && |Unmarked(raids, {})| <= old(|Unmarked(raids, {})|) && (HasLiveChild(raids, id) <==> old(HasLiveChild(raids, id)))
    {
      hide *;
      ghost var s := Snapshot(raids, finalizing, passes, refused, visited);
      ghost var root := RootOf(raids, id);
      var reached := DeadlineReached(id);
      SteadyFacts(s, nextId, {}, books, env);
      var m2, next2, ch;
      m2, next2, done, ch := MaybeReplan(raids, nextId, id, env, reached);
      NotYetReached(raids, id, env, reached, old(now), now);
      if done {
        RevisionSound(s, m2, nextId, next2, id, env, ch, books, root);
        books := books[id := BooksAfter(books[id], env, raids[id].planning.value.available, ch.gone, [(nextId, next2)])];
      } else if m2 == raids {
        RanNothing(s, {}, root);
        NewlyNone(raids);
        BooksExtendSelf(books);
      } else {
        DrainSound(s, m2, nextId, id, env, ch.gone, books, {}, root);
        books := books[id := BooksAfter(books[id], env, raids[id].planning.value.available, ch.gone, [])];
      }
      raids, nextId := m2, next2;
    }

    // ----- uninterrupted blocks of work

    /** Between blocks nothing is expiring; marks may be left. */
    ghost predicate Calm()
      reads this
    {
      Steady(Snapshot(raids, finalizing, passes, refused, visited), nextId, {}, books, env) && expiring == {}
    }

    lemma CalmIs()
      ensures Calm() <==> Steady(Snapshot(raids, finalizing, passes, refused, visited), nextId, {}, books, env) && expiring == {}
    {
    }

    /** Nobody was refused, and no expiry around `id` can find a raid live and marked. */
    ghost predicate Unhindered(id: RaidId)
      reads this
    {
      refused == {} && (Caught(raids, finalizing) == {} || !Reached(raids, id, now))
    }

    lemma UnhinderedIs(id: RaidId)
      ensures Unhindered(id) <==> refused == {} && (Caught(raids, finalizing) == {} || !Reached(raids, id, now))
    {
    }

    constructor (environment: Environment, ticking: bool)
      requires EnvironmentOk(environment)
      ensures Calm() && raids == map[] && env == environment && this.ticking == ticking && Exposed(raids) == {} && refusals == {}
      ensures nextId == 0 && now == 0 && finalizing == {}
    {
      raids, nextId, expiring, finalizing, now, env, this.ticking := map[], 0, {}, {}, 0, environment, ticking;
      passes, books, refused, visited, refusals, begun, apex := multiset{}, map[], {}, {}, {}, map[], 0;
    }

    /** A step begins: nobody was refused yet, and only what is exposed already may be. */
    ghost method Begin()
      requires Calm()
      modifies this`refused
      ensures Calm() && refused == Exposed(raids)
    {
      hide *;
      CalmIs();
      Rebased(Snapshot(raids, finalizing, passes, refused, visited), nextId, books, env);
      refused := Exposed(raids);
      CalmIs();
    }

    /** The continuation of one `finalizeRaid`: its mark is given up. At a root this is after the
        settlement. */
    method Release(id: RaidId)
      requires Calm()
      modifies this`finalizing
      ensures Calm() && finalizing == old(finalizing) - {id}
    {
      hide *;
      CalmIs();
      Unmarks(Snapshot(raids, finalizing, passes, refused, visited), nextId, books, env, finalizing - {id});
      finalizing := finalizing - {id};
      CalmIs();
    }

    /** The continuations of all of them but the roots, for which nothing is awaited. */
    method ReleaseAll()
      requires Calm()
      modifies this`finalizing
      ensures Calm() && finalizing == RootsOf(raids, old(finalizing)) && Caught(raids, finalizing) == {}
    {
      hide *;
      CalmIs();
      RootsOfMarks(raids, finalizing);
      Unmarks(Snapshot(raids, finalizing, passes, refused, visited), nextId, books, env, RootsOf(raids, finalizing));
      finalizing := RootsOf(raids, finalizing);
      CalmIs();
      SteadyFacts(Snapshot(raids, finalizing, passes, refused, visited), nextId, {}, books, env);
      RootMarksCatchNone(raids, finalizing);
    }

    /** The deadline of a raid passes. Of the live raids that are linked with it by live raids,
        exactly those that are marked as being finalized stay live; all other raids stay as live as
        they were. So the whole tree is terminal if and only if all its live raids were linked and
        none was marked; and no live raid is below a terminal one if and only if no linked raid was
        marked, and none but the topmost of them was below a terminal one before. Every linked raid
        without a mark is passed over once, nobody selected in a leaf of them is left unsettled, and
        the submissions are gathered at the top. Other trees are left alone. */
    method OnDeadline(id: RaidId)
      requires Calm() && Reached(raids, id, now)
      modifies this`raids, this`nextId, this`expiring, this`finalizing, this`now, this`passes, this`books, this`refused, this`visited,
               this`begun, this`apex
      ensures Calm() && Onward(old(raids), old(books), raids, books) && nextId == old(nextId) && raids.Keys == old(raids.Keys)
      ensures id in raids
      ensures now >= old(now) && (ticking || now == old(now))
      ensures !old(Live(raids, id)) ==> raids == old(raids) && passes == old(passes) && finalizing == old(finalizing)
      ensures old(Live(raids, id)) ==>
                var root, linked, marked := RootOf(old(raids), id), Linked(old(raids), id), old(finalizing);
                && (forall x :: Live(raids, x) <==> Live(old(raids), x) && (x !in linked || x in marked))
                && (TreeDead(raids, root) <==> LiveOf(old(raids), root) <= linked - marked)
                && (Exposed(raids) == {} <==> linked !! marked && Exposed(old(raids)) <= {TopOf(old(raids), id)})
                && (forall x :: x in linked - marked ==> passes[x] == old(passes)[x] + 1)
                && (forall x :: x !in linked ==> passes[x] == old(passes)[x])
                && ExpiredLeaves(old(raids), raids, linked) && Elsewhere(old(raids), raids, root) && Gathered(raids, root)
      ensures old(Live(raids, id) && Exposed(raids) == {}) ==> Linked(old(raids), id) == LiveOf(old(raids), RootOf(old(raids), id))
      ensures Live(raids, id) ==> id in old(finalizing)
      ensures refused >= old(refused) && Survives(old(raids)[id], raids[id])
      ensures refused == {} && old(Live(raids, id)) ==> NoneReady(raids, finalizing, id)
      ensures old(Unhindered(id)) ==> Unhindered(id)
    {
      hide *;
      CalmIs();
      ReachedIn(raids, id, now);
      LiveIs(raids, id);
      OnwardItself(raids, books);
      SurvivesItself(raids[id]);
      UnhinderedIs(id);
      ghost var s := Snapshot(raids, finalizing, passes, refused, visited);
      ghost var root := RootOf(raids, id);
      if Terminal(raids[id].status) {
        return;
      }
      visited, begun, apex := {}, raids, TopOf(raids, id);
      WithinStarts(raids, id);
      Forgets(s, nextId, books, env);
      ghost var s0 := Snapshot(raids, finalizing, passes, refused, visited);
      SteadyFacts(s0, nextId, {}, books, env);
      Expire(id);
      ghost var s' := Snapshot(raids, finalizing, passes, refused, visited);
      RanOutWent(s0, s', {}, root);
      RanOutFacts(s0, s', {}, {}, root);
      EffectLater(s0.raids, raids, {}, {});
      OnwardIs(s0.raids, books, raids, books);
      KeptUnderEffect(s0.raids, raids, {}, {}, id);
      GrewNot(raids, nextId, root, env);
      BlockSurvives(s0, s', raids, nextId, nextId, nextId, root, env, id);
      LeftMarked(s0, s', root, id);
      CaughtStays(s0, s', {}, {}, root);
      RefusedCaught(s0, s', {}, {}, root);
      DeadlineDone(s0, s', nextId, id, root);
      LinkedTree(s0.raids, nextId, id);
      if refused == {} {
        Unexposed(s0, nextId, books, env);
        ExpiryDead(s0, s', nextId, id, root);
        NoneReadyDead(raids, finalizing, id);
      }
      UnhinderedIs(id);
      CalmIs();
    }

    /** `abortRaid`, and the refresh that its answer makes: everything on a live path down from `id`
        is cancelled, nobody there is still at work. */
    method AbortRaid(id: RaidId) returns (ghost cancelled: Raids)
      requires Calm() && id in raids
      modifies this`raids
      ensures Calm() && Later(old(raids), raids) && Exposed(raids) <= old(Exposed(raids))
      ensures Cancellation.AbortedBelow(old(raids), cancelled, id) && RefreshedBelow(cancelled, raids, id)
      ensures forall x :: x in old(raids) && Cancellation.LivePath(old(raids), id, x) ==>
                x in cancelled && Cancellation.CancelledFrom(old(raids)[x], cancelled[x])
    {
      hide *;
      CalmIs();
      ghost var s := Snapshot(raids, finalizing, passes, refused, visited);
      SteadyFacts(s, nextId, {}, books, env);
      var m := Cancellation.Abort(raids, nextId, id);
      AbortSound(s, m, nextId, books, env, id);
      Cancellation.AbortedIs(s.raids, m, id);
      raids := m;
      cancelled := m;
      CalmIs();
      Refresh(id);
      LaterOn(s.raids, m, raids);
    }

    /** A status query, which refreshes an inner raid and all below it. */
    method Refresh(id: RaidId)
      requires Calm() && id in raids
      modifies this`raids
      ensures Calm() && Later(old(raids), raids) && Exposed(raids) == old(Exposed(raids)) && RefreshedBelow(old(raids), raids, id)
    {
      hide *;
      CalmIs();
      ghost var s := Snapshot(raids, finalizing, passes, refused, visited);
      SteadyFacts(s, nextId, {}, books, env);
      raids := RefreshParent(raids, nextId, id);
      RefreshIsRefreshing(s.raids, raids, id);
      RefreshElsewhere(s.raids, raids, id);
      RefreshRan(s, raids, nextId, {}, books, env, RootOf(s.raids, id));
      RefreshingLater(s.raids, raids);
      CalmIs();
    }

    /** What follows a change of a raid: its ancestors are refreshed and looked at. */
    method NotifyParent(id: RaidId)
      requires Calm() && id in raids
      modifies this`raids, this`nextId, this`expiring, this`finalizing, this`now, this`passes, this`books, this`refused, this`visited,
               this`begun, this`apex
      ensures Calm() && Onward(old(raids), old(books), raids, books) && nextId >= old(nextId) && refused >= old(refused)
      ensures now >= old(now) && (ticking || now == old(now))
      ensures id in raids && Survives(old(raids)[id], raids[id])
      ensures old(Live(raids, id)) && refused == {} ==> Live(raids, id) || NoneReady(raids, finalizing, id)
      ensures !ticking && old(Unhindered(id)) ==> Unhindered(id)
    {
      hide *;
      CalmIs();
      UnhinderedIs(id);
      LiveIs(raids, id);
      OnwardItself(raids, books);
      SurvivesItself(raids[id]);
      ghost var s := Snapshot(raids, finalizing, passes, refused, visited);
      ghost var root := RootOf(raids, id);
      SteadyFacts(s, nextId, {}, books, env);
      Neighbours(raids, nextId, id, now);
      if raids[id].parent.None? {
        return;
      }
      var p := raids[id].parent.value;
      if Live(raids, id) {
        LiveChildOf(raids, nextId, p, id);
      }
      ghost var before := RefreshAbove(id, p);
      Afterwards(s, Snapshot(before, finalizing, passes, refused, visited), raids, old(nextId), nextId, old(books), books, root, env, id);
      if !ticking {
        UnhinderedAfter(s, Snapshot(before, finalizing, passes, refused, visited), raids, old(nextId), nextId, root, env, id, now);
      }
      if Live(s.raids, id) && refused == {} {
        LiveOrDead(s, Snapshot(before, finalizing, passes, refused, visited), raids, old(nextId), nextId, root, env, id);
        if TreeDead(raids, RootOf(raids, id)) {
          NoneReadyDead(raids, finalizing, id);
        }
      }
      UnhinderedIs(id);
      CalmIs();
    }

    /** The end of most blocks: the raid itself is looked at. */
    method FinishUpdate(id: RaidId)
      requires Calm() && id in raids
      modifies this`raids, this`nextId, this`expiring, this`finalizing, this`now, this`passes, this`books, this`refused, this`visited,
               this`begun, this`apex
      ensures Calm() && Onward(old(raids), old(books), raids, books) && nextId >= old(nextId) && refused >= old(refused)
      ensures now >= old(now) && (ticking || now == old(now))
      ensures id in raids && Survives(old(raids)[id], raids[id])
      ensures old(Live(raids, id) || NoneReady(raids, finalizing, id)) && nextId == old(nextId) && refused == {} ==>
                NoneReady(raids, finalizing, id)
      ensures !ticking && old(Unhindered(id)) ==> Unhindered(id)
    {
      hide *;
      CalmIs();
      UnhinderedIs(id);
      ghost var s := Snapshot(raids, finalizing, passes, refused, visited);
      ghost var root := RootOf(raids, id);
      SteadyFacts(s, nextId, {}, books, env);
      ghost var before := MaybeFinalize(id);
      Afterwards(s, Snapshot(before, finalizing, passes, refused, visited), raids, old(nextId), nextId, old(books), books, root, env, id);
      WentFacts(s, Snapshot(before, finalizing, passes, refused, visited), {}, {}, root);
      if !ticking {
        UnhinderedAfter(s, Snapshot(before, finalizing, passes, refused, visited), raids, old(nextId), nextId, root, env, id, now);
      }
      UnhinderedIs(id);
      CalmIs();
    }

    /** `markTimedOut` and `markAssignmentFailed`. An assignment that is not live is left alone;
        otherwise it is settled for good, the next reserve is promoted and dispatched, and no other
        settled assignment or submission of the raid is touched. Without a runtime the promoted
        provider fails in its turn, and so on. */
    method SettleAssignment(id: RaidId, p: ProviderId, status: AssignmentStatus, runtimes: set<ProviderId>)
      requires Calm() && id in raids && (status == TimedOut || status == Failed)
      modifies this`raids, this`nextId, this`expiring, this`finalizing, this`now, this`passes, this`books, this`refused, this`visited,
               this`begun, this`apex
      ensures Calm() && Onward(old(raids), old(books), raids, books) && nextId >= old(nextId) && refused >= old(refused)
      ensures now >= old(now) && (ticking || now == old(now)) && id in raids
      ensures !old(Live(raids, id) && Unsettled(raids[id], p)) ==>
                raids == old(raids) && finalizing == old(finalizing) && refused == old(refused) && nextId == old(nextId)
      ensures old(Live(raids, id) && Unsettled(raids[id], p)) ==>
                var r := SetStatus(old(raids)[id], p, status);
                && Carried(PromoteReserve(r), raids[id])
                && ((NextReserve(r.reserves, r.selected).Some? ==> NextReserve(r.reserves, r.selected).value in runtimes) ==>
                      Survives(PromoteReserve(r), raids[id]))
                && (nextId == old(nextId) && refused == {} ==> NoneReady(raids, finalizing, id))
      ensures old(Live(raids, id) && Unsettled(raids[id], p)) ==>
                && p in raids[id].assignments && raids[id].assignments[p].status == status
                && Promoted(old(raids)[id], raids[id], runtimes)
                && (Queue(old(raids)[id].reserves, old(raids)[id].selected) != [] ==> |raids[id].selected| > |old(raids)[id].selected|)
      ensures !ticking && old(Unhindered(id)) ==> Unhindered(id)
      decreases |Waiting(raids, id)|, 1
    {
      hide *;
      CalmIs();
      LiveIs(raids, id);
      OnwardItself(raids, books);
      if Terminal(raids[id].status) || !Unsettled(raids[id], p) {
        return;
      }
      ghost var m, b := raids, books;
      UnsettledIn(raids[id], p);
      SettleTouches(raids[id], p, status);
      Touch(id, SetStatus(raids[id], p, status));
      ghost var m1 := raids;
      NotifyParent(id);
      OnwardOn(m, b, m1, b, raids, books);
      ghost var m2, b2 := raids, books;
      SameWaiting(m, m1, m2, id, p, status);
      var next := PromoteNext(id, runtimes);
      OnwardOn(m, b, m2, b2, raids, books);
      ghost var m4, b4 := raids, books;
      PromoteSurvives(m1[id], m2[id]);
      TouchedChildren(m[id], m1[id]);
      OnwardLeaf(m1, b, m2, b2, id);
      ThenCarried(m1[id], m2[id], m4[id]);
      SettledThen(m[id], m1[id], m2[id], m4[id], p, status);
      PromotedFrom(m[id], m2[id], m4[id], runtimes);
      FinishUpdate(id);
      OnwardOn(m, b, m4, b4, raids, books);
      OnwardLeaf(m4, b4, raids, books, id);
      SurvivesCarried(m4[id], raids[id]);
      CarriedOn(PromoteReserve(m1[id]), m4[id], raids[id]);
      if next.None? || next.value in runtimes {
        SurvivesAfter(PromoteReserve(m1[id]), PromoteReserve(m2[id]), m4[id]);
        SurvivesAfter(PromoteReserve(m1[id]), m4[id], raids[id]);
      }
      PromotedStays(m[id], m4[id], raids[id], runtimes);
      StaysSettled(m4[id], raids[id], p);
    }

    /** The next reserve is promoted and its dispatch begun. */
    method PromoteNext(id: RaidId, runtimes: set<ProviderId>) returns (next: Option<ProviderId>)
      requires Calm() && id in raids
      modifies this`raids, this`nextId, this`expiring, this`finalizing, this`now, this`passes, this`books, this`refused, this`visited,
               this`begun, this`apex
      ensures Calm() && Onward(old(raids), old(books), raids, books) && nextId >= old(nextId) && refused >= old(refused)
      ensures now >= old(now) && (ticking || now == old(now)) && id in raids
      ensures next == NextReserve(old(raids)[id].reserves, old(raids)[id].selected)
      ensures Carried(PromoteReserve(old(raids)[id]), raids[id])
      ensures next.None? || next.value in runtimes ==> Survives(PromoteReserve(old(raids)[id]), raids[id])
      ensures Promoted(old(raids)[id], raids[id], runtimes)
      ensures Queue(old(raids)[id].reserves, old(raids)[id].selected) != [] ==> |raids[id].selected| > |old(raids)[id].selected|
      ensures old(Live(raids, id) || NoneReady(raids, finalizing, id)) && nextId == old(nextId) && refused == {} ==>
                Live(raids, id) || NoneReady(raids, finalizing, id)
      ensures !ticking && old(Unhindered(id)) ==> Unhindered(id)
      decreases |Waiting(raids, id)|, 0
    {
      hide *;
      ghost var m, b := raids, books;
      PromoteTouches(raids[id]);
      PromotesOne(raids, id);
      next := NextReserve(raids[id].reserves, raids[id].selected);
      Touch(id, PromoteReserve(raids[id]));
      ghost var m3, b3 := raids, books;
      SurvivesItself(raids[id]);
      SurvivesCarried(raids[id], raids[id]);
      PromotedNobody(raids[id], raids[id], runtimes);
      if next.Some? {
        DispatchHead(id, next.value, runtimes);
        OnwardOn(m, b, m3, b3, raids, books);
      }
      PromotedNext(m[id], m[id], raids[id], runtimes);
    }

    /** The part of `dispatchProvider` before its pause. */
    method DispatchHead(id: RaidId, p: ProviderId, runtimes: set<ProviderId>)
      requires Calm() && id in raids
      modifies this`raids, this`nextId, this`expiring, this`finalizing, this`now, this`passes, this`books, this`refused, this`visited,
               this`begun, this`apex
      ensures Calm() && Onward(old(raids), old(books), raids, books) && nextId >= old(nextId) && refused >= old(refused)
      ensures now >= old(now) && (ticking || now == old(now)) && id in raids && Carried(old(raids)[id], raids[id])
      ensures !old(Live(raids, id)) ==> raids == old(raids)
      ensures old(Live(raids, id)) ==>
                || (Reached(old(raids), id, now) && (Live(raids, id) ==> id in old(finalizing)) && Survives(old(raids)[id], raids[id]))
                || (p in runtimes && raids == old(raids))
                || (p !in runtimes && if old(Unsettled(raids[id], p)) then Carried(PromoteReserve(SetStatus(old(raids)[id], p, Failed)), raids[id])
                                      else raids == old(raids))
      ensures p in runtimes ==> Survives(old(raids)[id], raids[id])
      ensures Promoted(old(raids)[id], raids[id], runtimes)
      ensures |raids[id].selected| > |old(raids)[id].selected| ==>
                p !in runtimes && p in raids[id].assignments && raids[id].assignments[p].status == Failed
      ensures old(Live(raids, id) || NoneReady(raids, finalizing, id)) && nextId == old(nextId) && refused == {} ==>
                Live(raids, id) || NoneReady(raids, finalizing, id)
      ensures !ticking && old(Unhindered(id)) ==> Unhindered(id)
      decreases |Waiting(raids, id)|, 2
    {
      hide *;
      CalmIs();
      LiveIs(raids, id);
      OnwardItself(raids, books);
      SurvivesItself(raids[id]);
      SurvivesCarried(raids[id], raids[id]);
      PromotedNobody(raids[id], raids[id], runtimes);
      if Terminal(raids[id].status) {
        return;
      }
      UnhinderedIs(id);
      var reached := DeadlineReached(id);
      CalmIs();
      UnhinderedIs(id);
      if reached {
        ghost var m, b, due := raids, books, now;
        OnDeadline(id);
        ReachedLater(m, id, due, now);
        OnwardLeaf(m, b, raids, books, id);
        SurvivesCarried(m[id], raids[id]);
        PromotedNobody(m[id], raids[id], runtimes);
      } else if p !in runtimes {
        ghost var r := raids[id];
        if Unsettled(r, p) {
          UnsettledIn(r, p);
          FailedCarried(r, p);
        }
        SettleAssignment(id, p, Failed, runtimes);
        if Unsettled(r, p) {
          CarriedOn(r, PromoteReserve(SetStatus(r, p, Failed)), raids[id]);
        }
      }
    }

    /** One raid changes. */
    method Touch(id: RaidId, r: Raid)
      requires Calm() && id in raids && Touched(raids[id], r)
      modifies this`raids
      ensures Calm() && raids == old(raids)[id := r] && Onward(old(raids), books, raids, books) && Exposed(raids) == old(Exposed(raids))
      ensures forall x :: Live(raids, x) <==> old(Live(raids, x))
      ensures old(!Live(raids, id) && NoneReady(raids, finalizing, id)) ==> NoneReady(raids, finalizing, id)
      ensures old(Unhindered(id)) <==> Unhindered(id)
    {
      hide *;
      CalmIs();
      UnhinderedIs(id);
      ghost var s := Snapshot(raids, finalizing, passes, refused, visited);
      TouchSound(s, nextId, books, env, id, r);
      OnwardIs(s.raids, books, raids[id := r], books);
      TouchReady(raids, finalizing, id, r);
      TouchDeadline(raids, finalizing, id, r);
      raids := raids[id := r];
      UnhinderedIs(id);
      CalmIs();
    }

    /** What follows a submission. */
    method Followed(id: RaidId)
      requires Calm() && id in raids
      modifies this`raids, this`nextId, this`expiring, this`finalizing, this`now, this`passes, this`books, this`refused, this`visited,
               this`begun, this`apex
      ensures Calm() && Onward(old(raids), old(books), raids, books) && nextId >= old(nextId) && refused >= old(refused)
      ensures now >= old(now) && (ticking || now == old(now))
      ensures id in raids && Survives(old(raids)[id], raids[id])
      ensures old(Live(raids, id)) && nextId == old(nextId) && refused == {} ==> NoneReady(raids, finalizing, id)
      ensures !ticking && old(Unhindered(id)) ==> Unhindered(id)
    {
      hide *;
      ghost var m, b := raids, books;
      NotifyParent(id);
      ghost var m1, b1 := raids, books;
      OnwardLeaf(m, b, m1, b1, id);
      FinishUpdate(id);
      OnwardOn(m, b, m1, b1, raids, books);
      SurvivesOn(m[id], m1[id], raids[id]);
    }

    /** `submitResult` after its pauses, the raid still being live: the submission is recorded
        once, and nothing recorded before is lost. */
    method Submit(id: RaidId, e: Entry)
      requires Calm() && Live(raids, id) && id in raids && e.provider in raids[id].assignments
      modifies this`raids, this`nextId, this`expiring, this`finalizing, this`now, this`passes, this`books, this`refused, this`visited,
               this`begun, this`apex
      ensures Calm() && Onward(old(raids), old(books), raids, books) && id in raids
      ensures Survives(ApplySubmission(old(raids)[id], e), raids[id]) && SubmissionTaken(old(raids)[id], raids[id], e)
      ensures old(raids)[id].children == [] ==>
                Unranked(raids[id].ranked) == Unranked(old(raids)[id].ranked) + multiset{e.(rank := 0)}
      ensures nextId == old(nextId) && refused == {} ==> NoneReady(raids, finalizing, id)
      ensures !ticking && old(Unhindered(id)) ==> Unhindered(id)
    {
      hide *;
      LiveIs(raids, id);
      ghost var m, b := raids, books;
      SubmissionTouches(raids[id], e);
      Touch(id, ApplySubmission(raids[id], e));
      ghost var m1 := raids;
      Followed(id);
      OnwardOn(m, b, m1, b, raids, books);
      SurvivesEntries(m1[id], raids[id]);
      TakenIs(m[id], raids[id], e);
      TouchedChildren(m[id], m1[id]);
    }

    /** The part of `dispatchProvider` after its pause, raid and assignment still being live. */
    method InviteProvider(id: RaidId, p: ProviderId, recentlyInvited: bool)
      requires Calm() && Live(raids, id) && id in raids && Unsettled(raids[id], p)
      modifies this`raids
      ensures Calm() && Onward(old(raids), books, raids, books) && raids.Keys == old(raids.Keys)
      ensures var waiting := recentlyInvited && old(raids)[id].assignments[p].status == Invited && old(raids)[id].assignments[p].runId.None?;
              raids == if waiting then old(raids) else old(raids)[id := Invite(old(raids)[id], p)]
      ensures old(Unhindered(id)) <==> Unhindered(id)
    {
      hide *;
      LiveIs(raids, id);
      OnwardItself(raids, books);
      UnsettledIn(raids[id], p);
      if recentlyInvited && raids[id].assignments[p].status == Invited && raids[id].assignments[p].runId.None? {
        return;
      }
      InviteRevives(raids[id], p);
      InviteIs(raids[id], p);
      Touch(id, raids[id].(assignments := raids[id].assignments[p := raids[id].assignments[p].(status := Invited)], status := Running));
    }

    /** The provider answered the invitation; raid and assignment are looked at again. */
    method Accept(id: RaidId, p: ProviderId, runId: string)
      requires Calm() && id in raids && p in raids[id].assignments
      modifies this`raids
      ensures Calm() && Onward(old(raids), books, raids, books) && raids.Keys == old(raids.Keys)
      ensures raids == if old(Live(raids, id) && Unsettled(raids[id], p))
                       then old(raids)[id := old(raids)[id].(assignments := old(raids)[id].assignments[p := Assignment(Accepted, Some(runId))])]
                       else old(raids)
      ensures old(Unhindered(id)) <==> Unhindered(id)
    {
      hide *;
      LiveIs(raids, id);
      UnsettledIs(raids[id], p);
      OnwardItself(raids, books);
      if Terminal(raids[id].status) || Settled(raids[id].assignments[p].status) {
        return;
      }
      var r := raids[id].(assignments := raids[id].assignments[p := Assignment(Accepted, Some(runId))]);
      AssignmentsTouch(raids[id], r);
      Touch(id, r);
    }

    /** `markHeartbeat`; a heartbeat of a settled assignment or of another run is ignored. */
    method Heartbeat(id: RaidId, p: ProviderId, runId: Option<string>)
      requires Calm() && id in raids
      modifies this`raids
      ensures Calm() && Onward(old(raids), books, raids, books) && Exposed(raids) == old(Exposed(raids))
      ensures var taken := old(Live(raids, id) && HeartbeatTaken(raids[id], p, runId));
              if taken then Refreshing(old(raids)[id := SetStatus(old(raids)[id], p, Working)], raids) else raids == old(raids)
    {
      hide *;
      LiveIs(raids, id);
      OnwardItself(raids, books);
      HeartbeatIs(raids[id], p, runId);
      if Terminal(raids[id].status) || !HeartbeatTaken(raids[id], p, runId) {
        return;
      }
      ghost var m := raids;
      HeartbeatTouches(raids[id], p, runId);
      Touch(id, SetStatus(raids[id], p, Working));
      ghost var m1 := raids;
      CalmIs();
      RefreshingNothing(raids, RootOf(raids, id));
      if raids[id].parent.Some? {
        ghost var s := Snapshot(raids, finalizing, passes, refused, visited);
        SteadyFacts(s, nextId, {}, books, env);
        Neighbours(raids, nextId, id, now);
        RefreshAncestry(raids[id].parent.value);
        RefreshRan(s, raids, nextId, {}, books, env, RootOf(m1, id));
        RefreshingLater(m1, raids);
        OnwardIs(m1, books, raids, books);
        OnwardOn(m, books, m1, books, raids, books);
      }
      CalmIs();
    }

    /** The head of `runRaid`; its providers or children are started by steps of their own. */
    method StartRaid(id: RaidId)
      requires Calm() && id in raids
      modifies this`raids, this`nextId, this`expiring, this`finalizing, this`now, this`passes, this`books, this`refused, this`visited,
               this`begun, this`apex
      ensures Calm() && Onward(old(raids), old(books), raids, books) && id in raids
      ensures !old(Live(raids, id)) ==> raids == old(raids)
      ensures old(Live(raids, id)) ==>
                || (Reached(old(raids), id, now) && (Live(raids, id) ==> id in old(finalizing)))
                || raids == old(raids)[id := old(raids)[id].(status := Dispatching)]
      ensures !ticking && old(Unhindered(id)) ==> Unhindered(id)
    {
      hide *;
      LiveIs(raids, id);
      OnwardItself(raids, books);
      if Terminal(raids[id].status) {
        return;
      }
      CalmIs();
      UnhinderedIs(id);
      ghost var m := raids;
      var reached := DeadlineReached(id);
      CalmIs();
      UnhinderedIs(id);
      if reached {
        ghost var due := now;
        OnDeadline(id);
        ReachedLater(m, id, due, now);
        return;
      }
      StatusTouches(raids[id], Dispatching);
      Touch(id, raids[id].(status := Dispatching));
    }

    /** The end of `runHierarchicalRaid`: every child run is over. */
    method FinishChildren(id: RaidId)
      requires Calm() && id in raids && raids[id].children != []
      modifies this`raids, this`nextId, this`expiring, this`finalizing, this`now, this`passes, this`books, this`refused, this`visited,
               this`begun, this`apex
      ensures Calm() && Onward(old(raids), old(books), raids, books) && id in raids
      ensures !old(Live(raids, id)) ==> raids == old(raids)
      ensures nextId == old(nextId) && !old(HasLiveChild(raids, id)) ==> !Live(raids, id) || id in old(finalizing)
      ensures now >= old(now) && (ticking || now == old(now))
      ensures !ticking && old(Unhindered(id)) ==> Unhindered(id)
      ensures old(Live(raids, id) && !HasLiveChild(raids, id) && id !in finalizing && raids[id].parent.Some?)
              && !Reached(old(raids), id, now) ==>
                ParentRevising(old(raids), old(finalizing), raids, finalizing, old(nextId), nextId, id, old(raids)[id].parent.value, env)
    {
      hide *;
      CalmIs();
      UnhinderedIs(id);
      LiveIs(raids, id);
      OnwardItself(raids, books);
      if Terminal(raids[id].status) {
        return;
      }
      ghost var m := raids;
      var reached := DeadlineReached(id);
      CalmIs();
      UnhinderedIs(id);
      if reached {
        ghost var due := now;
        OnDeadline(id);
        ReachedLater(m, id, due, now);
        return;
      }
      FinalizeParent(id);
    }

    method FinalizeParent(id: RaidId)
      requires Calm() && id in raids && raids[id].children != [] && Live(raids, id)
      modifies this`raids, this`nextId, this`expiring, this`finalizing, this`now, this`passes, this`books, this`refused, this`visited,
               this`begun, this`apex
      ensures Calm() && Onward(old(raids), old(books), raids, books) && id in raids
      ensures nextId == old(nextId) && !old(HasLiveChild(raids, id)) ==> !Live(raids, id) || id in old(finalizing)
      ensures now >= old(now) && (ticking || now == old(now))
      ensures !ticking && old(Unhindered(id)) ==> Unhindered(id)
      ensures old(Live(raids, id) && !HasLiveChild(raids, id) && id !in finalizing && raids[id].parent.Some?)
              && !Reached(old(raids), id, now) ==>
                ParentRevising(old(raids), old(finalizing), raids, finalizing, old(nextId), nextId, id, old(raids)[id].parent.value, env)
    {
      hide *;
      CalmIs();
      UnhinderedIs(id);
      ghost var s := Snapshot(raids, finalizing, passes, refused, visited);
      ghost var root := RootOf(raids, id);
      SteadyFacts(s, nextId, {}, books, env);
      raids := RefreshParent(raids, nextId, id);
      RefreshIsRefreshing(s.raids, raids, id);
      RefreshElsewhere(s.raids, raids, id);
      RefreshRan(s, raids, nextId, {}, books, env, root);
      AfterRefresh(s.raids, raids, {}, id);
      ghost var s1 := Snapshot(raids, finalizing, passes, refused, visited);
      PlanAllows(raids, id, env);
      RootsPlan(s1.raids, id);
      SteadyFacts(s1, nextId, {}, books, env);
      var done := TryReplan(id);
      ghost var before := if done then s1.raids else raids;
      LiveIs(s.raids, id);
      if !done {
        WentOn(s, s1, Snapshot(raids, finalizing, passes, refused, visited), {}, root);
        GrewNot(raids, nextId, root, env);
        ghost var books1 := books;
        ghost var m2 := raids;
        DrainedPlan(s1.raids, m2, id, env);
        before := FinalizeReady(id, s, root);
        BooksExtendOn(old(books), books1, books);
        if !old(HasLiveChild(raids, id)) && id !in s.finalizing && s.raids[id].parent.Some? && !Reached(s.raids, id, now) {
          ParentRevisingOn(s.raids, m2, s.finalizing, raids, finalizing, old(nextId), nextId, id, s.raids[id].parent.value, env);
        }
      }
      Afterwards(s, Snapshot(before, finalizing, passes, refused, visited), raids, old(nextId), nextId, old(books), books, root, env, id);
      if !ticking {
        UnhinderedAfter(s, Snapshot(before, finalizing, passes, refused, visited), raids, old(nextId), nextId, root, env, id, now);
      }
      UnhinderedIs(id);
      CalmIs();
    }

    /** `shouldFinalizeHierarchicalRaid` and `finalizeRaid` */
    method FinalizeReady(id: RaidId, ghost s: Snapshot, ghost root: RaidId) returns (ghost before: Raids)
      requires Steady(Snapshot(raids, finalizing, passes, refused, visited), nextId, {}, books, env) && expiring == {} && id in raids
      requires raids[id].children != [] && id in s.raids && Live(s.raids, id)
      requires Went(s, Snapshot(raids, finalizing, passes, refused, visited), {}, {}, root) && Newly(s.raids, raids) == {}
      requires RootOf(raids, id) == root
      modifies this`raids, this`nextId, this`expiring, this`finalizing, this`now, this`passes, this`books, this`refused, this`visited,
               this`begun, this`apex
      ensures Steady(Snapshot(raids, finalizing, passes, refused, visited), nextId, {}, books, env) && expiring == {}
      ensures BooksExtend(old(books), books) && now >= old(now) && (ticking || now == old(now))
      ensures Grew(before, raids, old(nextId), nextId, root, env)
      ensures Went(s, Snapshot(before, finalizing, passes, refused, visited), {}, {}, root)
      ensures old(Reached(raids, id, now)) ==> nextId == old(nextId)
      ensures refused == old(refused) || Reached(raids, id, now)
      ensures nextId == old(nextId) && !old(HasLiveChild(raids, id)) ==> !Live(raids, id) || id in old(finalizing)
      ensures old(!HasLiveChild(raids, id) && id !in finalizing && raids[id].parent.Some?) && !Reached(old(raids), id, now) ==>
                ParentRevising(old(raids), old(finalizing), raids, finalizing, old(nextId), nextId, id, old(raids)[id].parent.value, env)
    {
      hide *;
      ghost var s2 := Snapshot(raids, finalizing, passes, refused, visited);
      SteadyFacts(s2, nextId, {}, books, env);
      AllTerminalDone(raids, nextId, id, {} + refused);
      LivesAsBefore(s, s2, {}, root, id);
      GrewNot(raids, nextId, root, env);
      BooksExtendSelf(books);
      before := raids;
      if AllTerminal(raids, id) {
        before := Finalize(id);
        if id !in s2.finalizing {
          OwnWent(s2, Snapshot(before, finalizing, passes, refused, visited), {}, id, root);
          WentOn(s, s2, Snapshot(before, finalizing, passes, refused, visited), {}, root);
          if nextId == old(nextId) {
            GrewSame(before, raids, nextId, root, env);
            NewlyDead(s2.raids, raids, id);
          }
        } else {
          assert refused == s2.refused;
        }
      }
    }

    /** `spawnPreparedRaid`: a single raid. */
    method LaunchSingle(deadline: int, task: Planning.Task, primaries: seq<ProviderId>, reserves: seq<ProviderId>) returns (id: RaidId)
      requires Calm()
      modifies this`raids, this`nextId, this`books
      ensures Calm() && Onward(old(raids), old(books), raids, books) && id !in old(raids) && Exposed(raids) == old(Exposed(raids))
      ensures raids == old(raids)[id := NewRaid(None, deadline, task, None, primaries, reserves).(status := Sanitizing)]
      ensures JustMade(raids[id], None, deadline, task, None, primaries, reserves) && raids[id].status == Sanitizing && raids[id].children == []
    {
      hide *;
      CalmIs();
      id := nextId;
      ghost var s := Snapshot(raids, finalizing, passes, refused, visited);
      var r := NewRaid(None, deadline, task, None, primaries, reserves).(status := Sanitizing);
      NewRaidIs(None, deadline, task, None, primaries, reserves);
      NewRaidMade(None, deadline, task, None, primaries, reserves);
      StillMade(None, deadline, task, None, primaries, reserves);
      NewRootSound(s, nextId, books, env, r, []);
      NewBooks(s, nextId, books, env, []);
      raids, nextId, books := raids[nextId := r], nextId + 1, books[nextId := Books([], [], [])];
      OnwardIs(s.raids, old(books), raids, books);
      CalmIs();
    }

    /** `spawnPreparedRaid`: the raids of a planned tree, the pool for its revisions, and books
        that begin with that pool. */
    method LaunchTree(deadline: int, task: Planning.Task, nodes: seq<Prepared>, pool: seq<ProviderId>) returns (id: RaidId)
      requires Calm()
      modifies this`raids, this`nextId, this`books
      ensures Calm() && Onward(old(raids), old(books), raids, books) && id !in old(raids) && id in raids && nextId > id == old(nextId)
      ensures Exposed(raids) == old(Exposed(raids))
      ensures MirrorsAll(raids, id + 1, nextId, raids[id].children, 0, nodes, deadline)
      ensures raids[id] == NewTree(deadline, task, pool).(children := raids[id].children)
      ensures raids[id].parent.None? && raids[id].deadline == deadline && raids[id].task == task && raids[id].status == Sanitizing
              && raids[id].selected == [] && raids[id].assignments == map[] && raids[id].ranked == []
      ensures raids[id].planning == if pool == [] then None else Some(RaidState.Adaptive(pool, |pool|, 0, |pool|, [], []))
      ensures books == old(books)[id := Books(pool, [], [])]
      ensures forall x :: x in old(raids) ==> raids[x] == old(raids)[x]
    {
      hide *;
      CalmIs();
      id := nextId;
      ghost var s := Snapshot(raids, finalizing, passes, refused, visited);
      var r := NewTree(deadline, task, pool);
      NewTreeIs(deadline, task, pool);
      NewRaidIs(None, deadline, task, None, [], []);
      NewRootSound(s, nextId, books, env, r, pool);
      NewBooks(s, nextId, books, env, pool);
      raids, nextId, books := raids[nextId := r], nextId + 1, books[nextId := Books(pool, [], [])];
      ghost var s1 := Snapshot(raids, finalizing, passes, refused, visited);
      SteadyFacts(s1, nextId, {}, books, env);
      LiveIs(raids, id);
      var m2, next2 := Instantiate(raids, nextId, id, nodes);
      GrownSound(s1, m2, nextId, next2, id, books, env);
      GrownFacts(raids, m2, nextId, next2, id);
      LaunchLater(s.raids, raids, m2, id, r, next2);
      raids, nextId := m2, next2;
      OnwardIs(s.raids, old(books), raids, books);
      CalmIs();
    }

    // ----- runs

    /** One step; what the source would not have reached is skipped. If the clock stands still
        within the step, and no live raid is marked or below a terminal one before it, none is
        below a terminal one after it. */
    method Step(e: Event)
      requires Calm()
      modifies this`raids, this`nextId, this`expiring, this`finalizing, this`now, this`passes, this`books, this`refused, this`visited,
               this`begun, this`apex, this`refusals
      ensures Calm() && Onward(old(raids), old(books), raids, books)
      ensures refusals == old(refusals) + refused
      ensures refused == {} && old(Exposed(raids) == {}) ==> Exposed(raids) == {}
      ensures !ticking && old(Exposed(raids) == {} && Caught(raids, finalizing) == {}) ==> Exposed(raids) == {}
    {
      hide *;
      Begin();
      OnwardItself(raids, books);
      match e {
        case Wait(elapsed) =>
          Elapse(elapsed);
        case Released(id) => Release(id);
        case Single(deadline, task, primaries, reserves) =>
          var id := LaunchSingle(deadline, task, primaries, reserves);
        case Tree(deadline, task, nodes, pool) =>
          var id := LaunchTree(deadline, task, nodes, pool);
        case _ =>
          if e.id in raids {
            StepAt(e);
          }
      }
      CalmIs();
      refusals := refusals + refused;
      CalmIs();
    }

    method Elapse(elapsed: nat)
      requires Calm()
      modifies this`now
      ensures Calm() && now == old(now) + elapsed
    {
      hide *;
      CalmIs();
      now := now + elapsed;
      CalmIs();
    }

    /** A step that is about one raid, when it begins with what is exposed. */
    method StepAt(e: Event)
      requires Calm() && !e.Wait? && !e.Released? && !e.Single? && !e.Tree? && e.id in raids && refused == Exposed(raids)
      modifies this`raids, this`nextId, this`expiring, this`finalizing, this`now, this`passes, this`books, this`refused, this`visited,
               this`begun, this`apex
      ensures Calm() && Onward(old(raids), old(books), raids, books)
      ensures refused == {} ==> Exposed(raids) == {}
      ensures !ticking && old(Exposed(raids) == {} && Caught(raids, finalizing) == {}) ==> refused == {}
    {
      hide *;
      UnhinderedIs(e.id);
      StepOf(e);
      CalmIs();
      NothingExposed(Snapshot(raids, finalizing, passes, refused, visited), nextId, books, env);
    }

    /** A step that is about one raid. */
    method StepOf(e: Event)
      requires Calm() && !e.Wait? && !e.Released? && !e.Single? && !e.Tree? && e.id in raids
      modifies this`raids, this`nextId, this`expiring, this`finalizing, this`now, this`passes, this`books, this`refused, this`visited,
               this`begun, this`apex
      ensures Calm() && Onward(old(raids), old(books), raids, books)
      ensures !ticking && old(Unhindered(e.id)) ==> refused == {}
    {
      hide *;
      OnwardItself(raids, books);
      OnwardIs(raids, books, raids, books);
      UnhinderedIs(e.id);
      ghost var m := raids;
      if e.Abort? {
        var cancelled := AbortRaid(e.id);
        OnwardIs(m, books, raids, books);
      } else if e.Query? {
        Refresh(e.id);
        OnwardIs(m, books, raids, books);
      } else if e.Beat? {
        Heartbeat(e.id, e.provider, e.run);
      } else if e.Invitation? {
        if Live(raids, e.id) && Unsettled(raids[e.id], e.provider) {
          InviteProvider(e.id, e.provider, e.recent);
        }
      } else {
        StepOn(e);
        UnhinderedIs(e.id);
      }
    }

    method StepOn(e: Event)
      requires Calm() && !e.Wait? && !e.Released? && !e.Single? && !e.Tree? && e.id in raids
      requires !e.Abort? && !e.Query? && !e.Beat? && !e.Invitation?
      modifies this`raids, this`nextId, this`expiring, this`finalizing, this`now, this`passes, this`books, this`refused, this`visited,
               this`begun, this`apex
      ensures Calm() && Onward(old(raids), old(books), raids, books)
      ensures !ticking && old(Unhindered(e.id)) ==> Unhindered(e.id)
    {
      hide *;
      OnwardItself(raids, books);
      match e
      case Deadline(id) => if Reached(raids, id, now) { OnDeadline(id); }
      case Dispatch(id, p, runtimes) => DispatchHead(id, p, runtimes);
      case Acceptance(id, p, runId) => if p in raids[id].assignments { Accept(id, p, runId); }
      case TimeOut(id, p, runtimes) => SettleAssignment(id, p, TimedOut, runtimes);
      case Failure(id, p, runtimes) => SettleAssignment(id, p, Failed, runtimes);
      case Submission(id, entry) =>
        if Live(raids, id) && entry.provider in raids[id].assignments {
          Submit(id, entry);
        }
      case Start(id) => StartRaid(id);
      case ChildrenOver(id) => if raids[id].children != [] { FinishChildren(id); }
    }

    /** Any run, with the marks given up whenever it may be: no raid goes away or moves, roots and
        leaves never leave a terminal status, other raids only with a new raid below, and the books
        of every plan are only added to. As long as no expiry has come to a raid that was live and
        marked, a terminal raid has only terminal descendants at the end of every step. */
    method Run(events: seq<Event>)
      requires Calm()
      modifies this`raids, this`nextId, this`expiring, this`finalizing, this`now, this`passes, this`books, this`refused, this`visited,
               this`begun, this`apex, this`refusals
      ensures Calm() && Onward(old(raids), old(books), raids, books) && refusals >= old(refusals)
      ensures old(Exposed(raids)) == {} && refusals == {} ==>
                forall a, x :: a in raids && Terminal(raids[a].status) && x in raids && Below(raids, a, x) ==> Terminal(raids[x].status)
    {
      hide *;
      OnwardItself(raids, books);
      for k := 0 to |events|
        invariant Calm() && Onward(old(raids), old(books), raids, books) && refusals >= old(refusals)
        invariant old(Exposed(raids)) == {} && refusals == {} ==> Exposed(raids) == {}
      {
        ghost var m, b, r := raids, books, refusals;
        Step(events[k]);
        OnwardOn(old(raids), old(books), m, b, raids, books);
      }
      if old(Exposed(raids)) == {} && refusals == {} {
        TerminalBelowAll();
      }
    }

    lemma TerminalBelowAll()
      requires Calm() && Exposed(raids) == {}
      ensures forall a, x :: a in raids && Terminal(raids[a].status) && x in raids && Below(raids, a, x) ==> Terminal(raids[x].status)
    {
      hide *;
      CalmIs();
      SteadyFacts(Snapshot(raids, finalizing, passes, refused, visited), nextId, {}, books, env);
      ExposedGuards(raids);
      forall a, x | a in raids && Terminal(raids[a].status) && x in raids && Below(raids, a, x)
        ensures Terminal(raids[x].status)
      {
        TerminalBelow(raids, nextId, a, x);
      }
    }

    /** Runs in which the clock stands still within a step and the marks are given up before the
        next one: at the end of every step a terminal raid has only terminal descendants. */
    method PromptRun(events: seq<Event>)
      requires Calm() && !ticking && Exposed(raids) == {} && Caught(raids, finalizing) == {}
      modifies this`raids, this`nextId, this`expiring, this`finalizing, this`now, this`passes, this`books, this`refused, this`visited,
               this`begun, this`apex, this`refusals
      ensures Calm() && Onward(old(raids), old(books), raids, books) && Exposed(raids) == {} && Caught(raids, finalizing) == {}
      ensures forall a, x :: a in raids && Terminal(raids[a].status) && x in raids && Below(raids, a, x) ==> Terminal(raids[x].status)
    {
      hide *;
      OnwardItself(raids, books);
      for k := 0 to |events|
        invariant Calm() && Onward(old(raids), old(books), raids, books) && Exposed(raids) == {} && Caught(raids, finalizing) == {}
      {
        ghost var m, b := raids, books;
        Step(events[k]);
        OnwardOn(old(raids), old(books), m, b, raids, books);
        ReleaseAll();
      }
      TerminalBelowAll();
    }

    /** A tree is launched with a pool, and then anything may happen: the pool is conserved. Each of
        its providers is still in it, was given to a raid that a revision made, or was dropped; only
        providers that are not registered were; each is given away or kept at most as often as it
        was in the pool; and there were at most as many revisions as providers left it. */
    method LaunchAndRun(deadline: int, task: Planning.Task, nodes: seq<Prepared>, pool: seq<ProviderId>, events: seq<Event>)
      returns (id: RaidId)
      requires Calm() && pool != []
      modifies this`raids, this`nextId, this`expiring, this`finalizing, this`now, this`passes, this`books, this`refused, this`visited,
               this`begun, this`apex, this`refusals
      ensures Calm() && Onward(old(raids), old(books), raids, books) && id !in old(raids) && id in raids && raids[id].planning.Some?
      ensures id in books
      ensures var a := raids[id].planning.value;
              var made, dropped := books[id].made, books[id].dropped;
              && multiset(pool) == multiset(a.available) + multiset(Granted(raids, made)) + multiset(dropped)
              && MadeOk(raids, nextId, made) && (forall p :: p in dropped ==> !Known(env, p))
              && a.revisionCount == |a.history| == |a.spawned| == |made|
              && a.revisionCount + |a.available| <= |pool| == a.plannedReserve == a.maxRevisions
              && Suffix(pool, a.available) && HistoryOk(a.history)
              && (forall p :: multiset(pool)[p] <= 1 ==> multiset(Granted(raids, made))[p] + multiset(a.available)[p] <= 1)
              && (forall p :: p in pool && p !in a.available && Known(env, p) ==> p in Granted(raids, made))
    {
      hide *;
      id := LaunchTree(deadline, task, nodes, pool);
      ghost var m, b := raids, books;
      NewTreeIs(deadline, task, pool);
      Run(events);
      OnwardOn(old(raids), old(books), m, b, raids, books);
      CalmIs();
      SteadyFacts(Snapshot(raids, finalizing, passes, refused, visited), nextId, {}, books, env);
      PoolConserved(m, b, raids, nextId, books, env, id, pool);
    }
  }
}
