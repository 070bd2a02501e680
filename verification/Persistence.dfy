/** Saving the state: a queue of saves, a debounced request for one, and a snapshot built from a
    cache (apps/orchestrator/src/persistence-queue.ts, orchestrator-persistence.ts). */
module Persistence {
  import opened Options
  import opened RaidState
  import opened Retention
  import opened Sequences

  type Hash = nat

  /** A raid without its `updatedAt`. */
  datatype Rest = Rest(id: Key, status: RaidStatus, children: seq<Key>, parent: Option<Key>)

  function RestOf(r: Record): Rest {
    Rest(r.id, r.status, r.children, r.parent)
  }

  datatype Cached = Cached(revision: Hash, persisted: Record)

  type Cache = map<Key, Cached>

  /** The hash tells contents apart. */
  ghost predicate Injective(hash: Rest -> Hash) {
    forall a, b :: hash(a) == hash(b) ==> a == b
  }

  /** Every entry carries the revision of its record. */
  ghost predicate CacheOk(cache: Cache, hash: Rest -> Hash) {
    forall id :: id in cache ==> cache[id].revision == hash(RestOf(cache[id].persisted))
  }

  /** The same raids in the same order, their `updatedAt` aside. */
  predicate Similar(a: seq<Record>, b: seq<Record>) {
    |a| == |b| && forall i :: 0 <= i < |a| ==> RestOf(a[i]) == RestOf(b[i])
  }

  // ----- the queue of saves

  datatype TaskState = Waiting | Running(snapshot: seq<Record>) | Done(ok: bool)

  /** A save and the save whose end it waits for. */
  datatype Task = Task(previous: Option<nat>, state: TaskState)

  /** The first `k` saves are over, the next may be running, the others have not begun: one at a
      time and in the order of the calls. */
  ghost predicate InOrder(tasks: seq<Task>, k: nat) {
    && k <= |tasks|
    && (forall i :: 0 <= i < |tasks| ==> tasks[i].previous == if i == 0 then None else Some(i - 1))
    && (forall i :: 0 <= i < k ==> tasks[i].state.Done?)
    && (k < |tasks| ==> !tasks[k].state.Done?)
    && (forall i :: k < i < |tasks| ==> tasks[i].state.Waiting?)
  }

  datatype Step = Changed(raids: seq<Record>) | Fired | Asked | Begun(task: nat, ttl: int, now: int) | Ended(task: nat, ok: bool)

  class Store {
    const hash: Rest -> Hash
    var tasks: seq<Task>
    var lastError: bool
    var timer: bool
    var dirty: bool
    var cache: Cache
    /** The raids in memory. */
    var live: seq<Record>
    /** What was saved last. */
    var disk: Option<seq<Record>>
    ghost var over: nat
    /** How many best-effort saves were asked for, and how many of them a snapshot was taken after. */
    ghost var requested: nat
    ghost var covered: nat

    ghost predicate Unstarted()
      reads this
    {
      exists i :: over <= i < |tasks| && tasks[i].state.Waiting?
    }

    ghost predicate Valid()
      reads this
    {
      && Injective(hash) && CacheOk(cache, hash)
      && InOrder(tasks, over)
      && (lastError <==> over > 0 && !tasks[over - 1].state.ok)
      && timer == dirty
      && covered <= requested
      && (covered < requested ==> timer || Unstarted())
      && (covered == requested && requested > 0 && over < |tasks| && tasks[over].state.Running? ==>
            Similar(tasks[over].state.snapshot, live))
      && (covered == requested && requested > 0 && (over == |tasks| || tasks[over].state.Waiting?) && !lastError ==>
            disk.Some? && Similar(disk.value, live))
    }

    constructor (hash: Rest -> Hash)
      requires Injective(hash)
      ensures Valid() && live == [] && disk.None? && requested == 0
    {
      this.hash := hash;
      tasks, lastError, timer, dirty, cache, live, disk := [], false, false, false, map[], [], None;
      over, requested, covered := 0, 0, 0;
    }

    /** `enqueue` chains a save to the one enqueued before it. */
    method Enqueue()
      requires Valid()
      modifies this`tasks
      ensures Valid() && tasks == old(tasks) + [Task(if |old(tasks)| == 0 then None else Some(|old(tasks)| - 1), Waiting)]
      ensures Unstarted()
    {
      ghost var n := |tasks|;
      tasks := tasks + [Task(if |tasks| == 0 then None else Some(|tasks| - 1), Waiting)];
      assert tasks[n].state.Waiting?;
      if over < n && old(Unstarted()) {
        var i :| over <= i < n && old(tasks)[i].state.Waiting?;
        assert tasks[i].state.Waiting?;
      }
    }

    /** `queueOrchestratorPersistBestEffort` */
    method Request()
      requires Valid()
      modifies this`timer, this`dirty, this`requested
      ensures Valid() && timer && requested == old(requested) + 1
    {
      requested := requested + 1;
      dirty := true;
      if timer {
        return;
      }
      timer := true;
    }

    /** The raids change, and a save is asked for. */
    method Change(raids: seq<Record>)
      requires Valid()
      modifies this`live, this`timer, this`dirty, this`requested
      ensures Valid() && live == raids && requested == old(requested) + 1 && timer
    {
      Request();
      live := raids;
    }

    /** The timer of the debounce. */
    method TimerFires()
      requires Valid() && timer
      modifies this`timer, this`dirty, this`tasks
      ensures Valid() && !timer && Unstarted()
    {
      timer := false;
      if !dirty {
        return;
      }
      dirty := false;
      ghost var n := |tasks|;
      tasks := tasks + [Task(if |tasks| == 0 then None else Some(|tasks| - 1), Waiting)];
      assert tasks[n].state.Waiting?;
    }

    /** A save may begin once the one before it is over: it takes its snapshot. */
    method Start(i: nat, ttl: int, now: int)
      requires Valid() && i < |tasks| && tasks[i].state.Waiting?
      requires tasks[i].previous.Some? ==> tasks[i].previous.value < |tasks| && tasks[tasks[i].previous.value].state.Done?
      modifies this`tasks, this`cache, this`live, this`covered
      ensures Valid() && i == over && covered == requested && |tasks| == |old(tasks)|
      ensures tasks[i].state.Running? && Similar(tasks[i].state.snapshot, live)
    {
      hide Injective, CacheOk, Similar;
      OnlyNext(tasks, over, i);
      var snapshot := BuildSnapshot(ttl, now);
      covered := requested;
      tasks := tasks[i := tasks[i].(state := TaskState.Running(snapshot))];
    }

    /** The save ends. */
    method Finish(i: nat, ok: bool)
      requires Valid() && i < |tasks| && tasks[i].state.Running?
      modifies this`tasks, this`lastError, this`disk, this`over
      ensures Valid() && over == old(over) + 1 && lastError == !ok
      ensures disk == if ok then Some(old(tasks)[i].state.snapshot) else old(disk)
    {
      hide Injective, CacheOk, Similar;
      OnlyRunning(tasks, over, i);
      if ok {
        disk := Some(tasks[i].state.snapshot);
      }
      ghost var before := tasks;
      tasks := tasks[i := tasks[i].(state := Done(ok))];
      lastError := !ok;
      over := over + 1;
      if j :| i < j < |before| && before[j].state.Waiting? {
        assert tasks[j].state.Waiting?;
      }
    }

    /** `buildOrchestratorSnapshot`: retention first, then a record for each raid kept. */
    method BuildSnapshot(ttl: int, now: int) returns (snapshot: seq<Record>)
      requires Injective(hash) && CacheOk(cache, hash)
      modifies this`cache, this`live
      ensures CacheOk(cache, hash) && Similar(snapshot, live)
      ensures exists pruned: set<Key> :: live == Retained(old(live), pruned)
      ensures forall id :: id in cache ==> exists r :: r in live && r.id == id
    {
      hide RestOf, Retained, Injective, Similar;
      var retained, pruned := PruneTerminalRaids(live, ttl, now);
      RetainedAll(live);
      assert exists p: set<Key> :: retained == Retained(live, p) by {
        assert retained == Retained(live, Elements(pruned)) || retained == Retained(live, {});
      }
      live := retained;
      SimilarNone();
      cache := map id | id in cache && (exists r :: r in retained && r.id == id) :: cache[id];
      snapshot := [];
      for i := 0 to |retained|
        invariant CacheOk(cache, hash) && Similar(snapshot, retained[..i]) && live == retained
        invariant forall id :: id in cache ==> exists r :: r in retained && r.id == id
      {
        var record := PersistRaidRecord(retained[i]);
        SimilarSnoc(snapshot, retained, i, record);
        snapshot := snapshot + [record];
      }
      assert retained[..|retained|] == retained;
    }

    /** `persistRaidRecord`: the cached record if its revision is that of the raid. */
    method PersistRaidRecord(r: Record) returns (persisted: Record)
      requires Injective(hash) && CacheOk(cache, hash)
      modifies this`cache
      ensures CacheOk(cache, hash) && RestOf(persisted) == RestOf(r)
      ensures r.id in cache && cache[r.id].persisted == persisted && (forall id :: id != r.id ==> (id in cache <==> id in old(cache)))
      ensures forall id :: id in old(cache) && id != r.id ==> cache[id] == old(cache)[id]
      ensures r.id in old(cache) && RestOf(old(cache)[r.id].persisted) == RestOf(r) ==> persisted == old(cache)[r.id].persisted
      ensures !(r.id in old(cache) && RestOf(old(cache)[r.id].persisted) == RestOf(r)) ==> persisted == r
    {
      var revision := hash(RestOf(r));
      if r.id in cache && cache[r.id].revision == revision {
        return cache[r.id].persisted;
      }
      cache := cache[r.id := Cached(revision, r)];
      persisted := r;
    }

    /** Any run of changes, timers, saves begun when they may begin and saves ended: nothing is
        lost on the way. */
    method Run(steps: seq<Step>)
      requires Valid()
      modifies this`tasks, this`timer, this`dirty, this`cache, this`live, this`covered, this`requested, this`lastError, this`disk, this`over
      ensures Valid()
      ensures !timer && over == |tasks| && !lastError && requested > 0 ==> disk.Some? && Similar(disk.value, live)
      ensures forall i, j :: 0 <= i < |tasks| && 0 <= j < |tasks| && tasks[i].state.Running? && tasks[j].state.Running? ==> i == j
    {
      hide InOrder, Similar, Injective, CacheOk;
      for k := 0 to |steps|
        invariant Valid()
      {
        match steps[k]
        case Changed(raids) => Change(raids);
        case Fired => if timer { TimerFires(); }
        case Asked => Enqueue();
        case Begun(i, ttl, now) =>
          if i < |tasks| && tasks[i].state.Waiting? {
            var p := tasks[i].previous;
            if p.None? || (p.value < |tasks| && tasks[p.value].state.Done?) {
              Start(i, ttl, now);
            }
          }
        case Ended(i, ok) => if i < |tasks| && tasks[i].state.Running? { Finish(i, ok); }
      }
      OneRuns(tasks, over);
    }
  }

  lemma SimilarNone()
    ensures Similar([], [])
  {
  }

  lemma SimilarSnoc(a: seq<Record>, b: seq<Record>, i: nat, record: Record)
    requires i < |b| && Similar(a, b[..i]) && RestOf(record) == RestOf(b[i])
    ensures Similar(a + [record], b[..i + 1])
  {
  }

  lemma RetainedAll(raids: seq<Record>)
    ensures Retained(raids, {}) == raids
  {
    if raids != [] {
      RetainedAll(raids[..|raids| - 1]);
      assert raids == raids[..|raids| - 1] + [raids[|raids| - 1]];
    }
  }

  /** Only the next save waits for one that is over. */
  lemma OnlyNext(tasks: seq<Task>, k: nat, i: nat)
    requires InOrder(tasks, k) && i < |tasks| && tasks[i].state.Waiting?
    requires tasks[i].previous.Some? ==> tasks[i].previous.value < |tasks| && tasks[tasks[i].previous.value].state.Done?
    ensures i == k
  {
  }

  lemma OneRuns(tasks: seq<Task>, k: nat)
    requires InOrder(tasks, k)
    ensures forall i, j :: 0 <= i < |tasks| && 0 <= j < |tasks| && tasks[i].state.Running? && tasks[j].state.Running? ==> i == j
  {
  }

  lemma OnlyRunning(tasks: seq<Task>, k: nat, i: nat)
    requires InOrder(tasks, k) && i < |tasks| && tasks[i].state.Running?
    ensures i == k && forall j :: 0 <= j < |tasks| && tasks[j].state.Running? ==> j == i
  {
  }
}
