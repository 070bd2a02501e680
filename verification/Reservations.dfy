/** Launch reservations and provider capacity, in single mode: the uninterrupted pieces of
    concurrent reserve and spawn calls (apps/orchestrator/src/raid-lifecycle-spawn.ts,
    raid-launch-reservations.ts, orchestrator-provider-capacity.ts). */
module Reservations {
  import opened Options
  import opened Sequences
  import opened RaidState
  import Planning

  type ReservationId = nat

  datatype Reservation = Reservation(id: ReservationId, route: string, key: string, created: int, expires: int, deadline: int,
                                     task: Planning.Task, primaries: seq<ProviderId>, reserves: seq<ProviderId>,
                                     output: Option<RaidId>)

  const STALE: int := 15 * 60 * 1000

  function Providers(r: Reservation): set<ProviderId> {
    (set p | p in r.primaries) + (set p | p in r.reserves)
  }

  // ----- counting

  function PoolCount(r: Raid, p: ProviderId): nat {
    if r.planning.Some? then multiset(r.planning.value.available)[p] else 0
  }

  /** What a raid needs of a provider now. */
  function ActiveIn(r: Raid, p: ProviderId): nat {
    if Terminal(r.status) then 0 else PoolCount(r, p) + if Unsettled(r, p) then 1 else 0
  }

  function Active(raids: seq<Raid>, p: ProviderId): nat {
    if raids == [] then 0 else Active(raids[..|raids| - 1], p) + ActiveIn(raids[|raids| - 1], p)
  }

  predicate Holds(r: Reservation, now: int, p: ProviderId) {
    r.output.None? && now < r.expires && p in Providers(r)
  }

  /** The unexpired reservations for a provider that have no output, those in flight aside. */
  function Held(rs: seq<Reservation>, flights: set<ReservationId>, now: int, p: ProviderId): nat {
    if rs == [] then 0
    else
      var last := rs[|rs| - 1];
      Held(rs[..|rs| - 1], flights, now, p) + if last.id !in flights && Holds(last, now, p) then 1 else 0
  }

  /** What a raid needs: a place for each time it has the provider in its pool, and one while the
      provider has an assignment that is not over; nothing once it is terminal itself. */
  lemma ActiveInIs(r: Raid, p: ProviderId)
    ensures var over := r.status.Final? || r.status.Cancelled? || r.status.Expired?;
            var busy := p in r.assignments && var s := r.assignments[p].status; s.Selected? || s.Invited? || s.Accepted? || s.Working?;
            ActiveIn(r, p) == if over then 0
                              else (if r.planning.Some? then multiset(r.planning.value.available)[p] else 0) + if busy then 1 else 0
  {
  }

  /** The reservations of the first `n` that hold a provider: unexpired, without output, and with the
      provider among primaries or reserves. */
  function Holding(rs: seq<Reservation>, n: nat, now: int, p: ProviderId): set<nat>
    requires n <= |rs|
  {
    set i: nat | i < n && rs[i].output.None? && now < rs[i].expires && (p in rs[i].primaries || p in rs[i].reserves)
  }

  lemma OneHolds(rs: seq<Reservation>, n: nat, now: int, p: ProviderId)
    requires n < |rs|
    ensures |Holding(rs, n + 1, now, p)| == |Holding(rs, n, now, p)| + if Holds(rs[n], now, p) then 1 else 0
  {
    var before := Holding(rs, n, now, p);
    assert n !in before;
    assert Holding(rs, n + 1, now, p) == before + if Holds(rs[n], now, p) then {n} else {};
  }

  lemma {:induction false} HeldCounts(rs: seq<Reservation>, n: nat, now: int, p: ProviderId)
    requires n <= |rs|
    ensures Held(rs[..n], {}, now, p) == |Holding(rs, n, now, p)|
  {
    if n == 0 {
      assert Holding(rs, 0, now, p) == {};
    } else {
      HeldCounts(rs, n - 1, now, p);
      assert rs[..n][..n - 1] == rs[..n - 1];
      hide Holding;
      OneHolds(rs, n - 1, now, p);
    }
  }

  type Counts = map<ProviderId, nat>

  function Get(counts: Counts, p: ProviderId): nat {
    if p in counts then counts[p] else 0
  }

  function Increment(counts: Counts, p: ProviderId): Counts {
    counts[p := Get(counts, p) + 1]
  }

  method CountPool(counts: Counts, pool: seq<ProviderId>) returns (next: Counts)
    ensures forall p :: Get(next, p) == Get(counts, p) + multiset(pool)[p]
  {
    next := counts;
    for k := 0 to |pool|
      invariant forall p :: Get(next, p) == Get(counts, p) + multiset(pool[..k])[p]
    {
      next := Increment(next, pool[k]);
      assert pool[..k + 1] == pool[..k] + [pool[k]];
    }
    assert pool[..|pool|] == pool;
  }

  method CountAssignments(counts: Counts, assignments: map<ProviderId, Assignment>) returns (next: Counts)
    ensures forall p :: Get(next, p) == Get(counts, p) + if p in assignments && !Settled(assignments[p].status) then 1 else 0
  {
    next := counts;
    var todo := assignments.Keys;
    while todo != {}
      invariant todo <= assignments.Keys
      invariant forall p :: Get(next, p) == Get(counts, p)
                  + if p in assignments && p !in todo && !Settled(assignments[p].status) then 1 else 0
    {
      var p :| p in todo;
      if !Settled(assignments[p].status) {
        next := Increment(next, p);
      }
      todo := todo - {p};
    }
  }

  method CountProviders(counts: Counts, providers: set<ProviderId>) returns (next: Counts)
    ensures forall p :: Get(next, p) == Get(counts, p) + if p in providers then 1 else 0
  {
    next := counts;
    var todo := providers;
    while todo != {}
      invariant todo <= providers
      invariant forall p :: Get(next, p) == Get(counts, p) + if p in providers && p !in todo then 1 else 0
    {
      var p :| p in todo;
      next := Increment(next, p);
      todo := todo - {p};
    }
  }

  /** `buildActiveAssignmentCounts` */
  method BuildCounts(raids: seq<Raid>, rs: seq<Reservation>, now: int) returns (counts: Counts)
    ensures forall p :: Get(counts, p) == Active(raids, p) + Held(rs, {}, now, p)
    ensures forall p :: Get(counts, p) == Active(raids, p) + |Holding(rs, |rs|, now, p)|
  {
    counts := map[];
    for i := 0 to |raids|
      invariant forall p :: Get(counts, p) == Active(raids[..i], p)
    {
      assert raids[..i + 1][..i] == raids[..i];
      if !Terminal(raids[i].status) {
        if raids[i].planning.Some? {
          counts := CountPool(counts, raids[i].planning.value.available);
        }
        counts := CountAssignments(counts, raids[i].assignments);
      }
    }
    assert raids[..|raids|] == raids;
    for i := 0 to |rs|
      invariant forall p :: Get(counts, p) == Active(raids, p) + Held(rs[..i], {}, now, p)
    {
      assert rs[..i + 1][..i] == rs[..i];
      if rs[i].output.None? && now < rs[i].expires {
        counts := CountProviders(counts, Providers(rs[i]));
      }
    }
    assert rs[..|rs|] == rs;
    forall p
      ensures Held(rs, {}, now, p) == |Holding(rs, |rs|, now, p)|
    {
      HeldCounts(rs, |rs|, now, p);
    }
  }

  /** `maxConcurrency`, and at least one. */
  function Cap(caps: Counts, p: ProviderId): (c: nat)
    ensures c >= 1 && (p in caps ==> c >= caps[p]) && (c == 1 || (p in caps && c == caps[p]))
  {
    if p in caps && caps[p] > 1 then caps[p] else 1
  }

  /** Everybody in question has a profile and is below capacity. */
  ghost predicate Room(raids: seq<Raid>, rs: seq<Reservation>, now: int, caps: Counts, primaries: seq<ProviderId>, reserves: seq<ProviderId>) {
    forall p :: p in primaries || p in reserves ==> p in caps && Active(raids, p) + Held(rs, {}, now, p) < Cap(caps, p)
  }

  /** `providerHasCapacity` for all of them; a provider without a profile has none. */
  predicate HaveCapacity(caps: Counts, counts: Counts, providers: set<ProviderId>) {
    forall p :: p in providers ==> p in caps && Get(counts, p) < Cap(caps, p)
  }

  // ----- how counts change

  lemma ActiveAppend(raids: seq<Raid>, r: Raid, p: ProviderId)
    ensures Active(raids + [r], p) == Active(raids, p) + ActiveIn(r, p)
  {
    assert (raids + [r])[..|raids|] == raids;
  }

  lemma {:induction false} ActiveUpdate(raids: seq<Raid>, i: nat, r: Raid, p: ProviderId)
    requires i < |raids|
    ensures Active(raids[i := r], p) == Active(raids, p) - ActiveIn(raids[i], p) + ActiveIn(r, p)
  {
    var n := |raids| - 1;
    if i < n {
      assert raids[i := r][..n] == raids[..n][i := r];
      ActiveUpdate(raids[..n], i, r, p);
    } else {
      assert raids[i := r][..n] == raids[..n];
    }
  }

  lemma HeldAppend(rs: seq<Reservation>, r: Reservation, flights: set<ReservationId>, now: int, p: ProviderId)
    ensures Held(rs + [r], flights, now, p) == Held(rs, flights, now, p) + if r.id !in flights && Holds(r, now, p) then 1 else 0
  {
    assert (rs + [r])[..|rs|] == rs;
  }

  lemma {:induction false} HeldLater(rs: seq<Reservation>, flights: set<ReservationId>, now: int, later: int, p: ProviderId)
    requires now <= later
    ensures Held(rs, flights, later, p) <= Held(rs, flights, now, p)
  {
    if rs != [] {
      HeldLater(rs[..|rs| - 1], flights, now, later, p);
    }
  }

  lemma {:induction false} HeldFewer(rs: seq<Reservation>, flights: set<ReservationId>, now: int, p: ProviderId)
    ensures Held(rs, flights, now, p) <= Held(rs, {}, now, p)
  {
    if rs != [] {
      HeldFewer(rs[..|rs| - 1], flights, now, p);
    }
  }

  predicate DistinctIds(rs: seq<Reservation>) {
    forall i, j :: 0 <= i < j < |rs| ==> rs[i].id != rs[j].id
  }

  /** A reservation that goes into flight is no longer held. */
  lemma {:induction false} HeldTakeOff(rs: seq<Reservation>, flights: set<ReservationId>, now: int, i: nat, p: ProviderId)
    requires DistinctIds(rs) && i < |rs| && rs[i].id !in flights
    ensures Held(rs, flights + {rs[i].id}, now, p) == Held(rs, flights, now, p) - if Holds(rs[i], now, p) then 1 else 0
  {
    var n := |rs| - 1;
    if i < n {
      HeldTakeOff(rs[..n], flights, now, i, p);
      assert rs[i].id != rs[n].id;
    } else {
      HeldOthers(rs[..n], flights, now, rs[n].id, p);
    }
  }

  lemma {:induction false} HeldOthers(rs: seq<Reservation>, flights: set<ReservationId>, now: int, id: ReservationId, p: ProviderId)
    requires forall i :: 0 <= i < |rs| ==> rs[i].id != id
    ensures Held(rs, flights + {id}, now, p) == Held(rs, flights, now, p)
    ensures Held(rs, flights - {id}, now, p) == Held(rs, flights, now, p)
  {
    if rs != [] {
      HeldOthers(rs[..|rs| - 1], flights, now, id, p);
    }
  }

  lemma {:induction false} HeldDrop(rs: seq<Reservation>, flights: set<ReservationId>, now: int, i: nat, p: ProviderId)
    requires i < |rs|
    ensures Held(rs[..i] + rs[i + 1..], flights, now, p) <= Held(rs, flights, now, p)
  {
    var n := |rs| - 1;
    if i < n {
      assert rs[..n][..i] + rs[..n][i + 1..] == (rs[..i] + rs[i + 1..])[..n - 1];
      assert (rs[..i] + rs[i + 1..])[n - 1] == rs[n];
      HeldDrop(rs[..n], flights, now, i, p);
    } else {
      assert rs[..i] + rs[i + 1..] == rs[..n];
    }
  }

  /** Setting the output of a reservation in flight changes nothing of what is held. */
  lemma {:induction false} HeldSet(rs: seq<Reservation>, flights: set<ReservationId>, now: int, i: nat, r: Reservation, p: ProviderId)
    requires i < |rs| && rs[i].id in flights && r.id == rs[i].id
    ensures Held(rs[i := r], flights, now, p) == Held(rs, flights, now, p)
  {
    var n := |rs| - 1;
    if i < n {
      assert rs[i := r][..n] == rs[..n][i := r];
      HeldSet(rs[..n], flights, now, i, r, p);
    } else {
      assert rs[i := r][..n] == rs[..n];
    }
  }

  /** Nor does the end of a flight whose reservation has its output. */
  lemma {:induction false} HeldLand(rs: seq<Reservation>, flights: set<ReservationId>, now: int, id: ReservationId, p: ProviderId)
    requires forall r :: r in rs && r.id == id ==> r.output.Some?
    ensures Held(rs, flights - {id}, now, p) == Held(rs, flights, now, p)
  {
    if rs != [] {
      assert rs[|rs| - 1] in rs;
      HeldLand(rs[..|rs| - 1], flights, now, id, p);
    }
  }

  // ----- pruning

  predicate Prunable(r: Reservation, now: int) {
    if r.output.Some? then r.created + STALE <= now else r.expires <= now
  }

  /** `pruneLaunchReservations` */
  function Pruned(rs: seq<Reservation>, now: int): (q: seq<Reservation>)
    ensures forall r :: r in q <==> r in rs && !Prunable(r, now)
  {
    if rs == [] then []
    else
      var front := rs[..|rs| - 1];
      assert forall r :: r in rs <==> r in front || r == rs[|rs| - 1];
      Pruned(front, now) + if Prunable(rs[|rs| - 1], now) then [] else [rs[|rs| - 1]]
  }

  /** An answered reservation goes a quarter of an hour after it was made, any other when it expires;
      the rest stays in order. */
  lemma {:induction false} PrunedKeeps(rs: seq<Reservation>, now: int)
    ensures Kept(rs, Pruned(rs, now), (r: Reservation) => if r.output.Some? then now < r.created + 900000 else now < r.expires)
  {
    hide Kept;
    var keep := (r: Reservation) => if r.output.Some? then now < r.created + 900000 else now < r.expires;
    if rs == [] {
      KeptNothing(keep);
    } else {
      var n := |rs| - 1;
      PrunedKeeps(rs[..n], now);
      KeptOneMore(rs[..n], Pruned(rs[..n], now), keep, rs[n]);
      assert rs == rs[..n] + [rs[n]];
      AppendNothing(Pruned(rs[..n], now));
    }
  }

  lemma {:induction false} PrunedHeld(rs: seq<Reservation>, flights: set<ReservationId>, now: int, p: ProviderId)
    ensures Held(Pruned(rs, now), flights, now, p) == Held(rs, flights, now, p)
  {
    if rs != [] {
      PrunedHeld(rs[..|rs| - 1], flights, now, p);
      if !Prunable(rs[|rs| - 1], now) {
        HeldAppend(Pruned(rs[..|rs| - 1], now), rs[|rs| - 1], flights, now, p);
      } else {
        assert Pruned(rs, now) == Pruned(rs[..|rs| - 1], now);
      }
    }
  }

  lemma {:induction false} PrunedDistinct(rs: seq<Reservation>, now: int)
    requires DistinctIds(rs)
    ensures DistinctIds(Pruned(rs, now))
  {
    if rs != [] {
      var front, last := rs[..|rs| - 1], rs[|rs| - 1];
      PrunedDistinct(front, now);
      var q := Pruned(front, now);
      forall i | 0 <= i < |q|
        ensures q[i].id != last.id
      {
        assert q[i] in front;
        var j: nat :| j < |front| && front[j] == q[i];
      }
    }
  }

  /** The reservation of an id, if it is there. */
  function Find(rs: seq<Reservation>, id: ReservationId): (i: Option<nat>)
    ensures i.Some? ==> i.value < |rs| && rs[i.value].id == id
    ensures i.None? ==> forall r :: r in rs ==> r.id != id
  {
    if rs == [] then None
    else if rs[|rs| - 1].id == id then Some(|rs| - 1)
    else
      assert forall r :: r in rs <==> r in rs[..|rs| - 1] || r == rs[|rs| - 1];
      Find(rs[..|rs| - 1], id)
  }

  /** `findReusableLaunchReservation` */
  function Reusable(rs: seq<Reservation>, route: string, key: string, now: int): (r: Option<Reservation>)
    ensures r.Some? <==> exists x :: x in rs && x.route == route && x.key == key && now < x.expires
    ensures r.Some? ==> r.value in rs && r.value.route == route && r.value.key == key && now < r.value.expires
  {
    if rs == [] then None
    else if rs[0].route == route && rs[0].key == key && now < rs[0].expires then Some(rs[0])
    else
      assert forall x :: x in rs <==> x in rs[1..] || x == rs[0];
      Reusable(rs[1..], route, key, now)
  }

  /** It is the first one that fits. */
  predicate Fits(r: Reservation, route: string, key: string, now: int) {
    r.route == route && r.key == key && now < r.expires
  }

  lemma {:induction false} ReusableIsFirst(rs: seq<Reservation>, route: string, key: string, now: int)
    ensures Reusable(rs, route, key, now).Some? ==>
              exists k :: 0 <= k < |rs| && rs[k] == Reusable(rs, route, key, now).value && Fits(rs[k], route, key, now)
                          && forall j :: 0 <= j < k ==> !Fits(rs[j], route, key, now)
  {
    if rs != [] {
      if Fits(rs[0], route, key, now) {
        assert rs[0] == Reusable(rs, route, key, now).value;
      } else if Reusable(rs, route, key, now).Some? {
        var rest := rs[1..];
        ReusableIsFirst(rest, route, key, now);
        hide Fits;
        var k: nat :| k < |rest| && rest[k] == Reusable(rest, route, key, now).value && Fits(rest[k], route, key, now)
                      && forall j :: 0 <= j < k ==> !Fits(rest[j], route, key, now);
        assert rs[k + 1] == rest[k];
        assert forall j :: 1 <= j < k + 1 ==> rs[j] == rest[j - 1];
      }
    }
  }

  // ----- the protocol

  /** The reservation a spawn may start with: there, meant for this request, not spawned yet, and
      neither it nor its deadline has passed. */
  predicate CanStart(rs: seq<Reservation>, id: ReservationId, key: string, now: int) {
    exists r :: r in rs && r.id == id && r.key == key && r.output.None? && now < r.expires && now < r.deadline * 1000
  }

  /** The reservation a spawn answers with: its output is still kept. */
  predicate HasOutput(rs: seq<Reservation>, id: ReservationId, key: string, now: int, raid: RaidId) {
    exists r :: r in rs && r.id == id && r.key == key && r.output == Some(raid) && now < r.created + STALE
  }

  /** A reservation that a spawn finds too late. */
  predicate Overdue(r: Reservation, id: ReservationId, key: string, now: int) {
    r.id == id && r.key == key && r.output.None? && r.deadline * 1000 <= now
  }

  lemma OverdueDropped(rs: seq<Reservation>, i: nat, key: string, now: int)
    requires DistinctIds(rs) && i < |rs| && Overdue(rs[i], rs[i].id, key, now)
    ensures forall r :: r in rs[..i] + rs[i + 1..] <==> r in rs && !Overdue(r, rs[i].id, key, now)
  {
    var left := rs[..i] + rs[i + 1..];
    forall r
      ensures r in left <==> r in rs && !Overdue(r, rs[i].id, key, now)
    {
      if r in left {
        var j: nat :| j < |left| && left[j] == r;
        assert r == rs[if j < i then j else j + 1];
      }
      if r in rs && r != rs[i] {
        var j: nat :| j < |rs| && rs[j] == r;
        assert r == left[if j < i then j else j - 1];
      }
    }
  }

  lemma NothingOverdue(rs: seq<Reservation>, i: Option<nat>, id: ReservationId, key: string, now: int)
    requires DistinctIds(rs) && i == Find(rs, id)
    requires i.Some? ==> !Overdue(rs[i.value], id, key, now)
    ensures forall r :: r in rs ==> !Overdue(r, id, key, now)
  {
    if i.Some? {
      OnlyOnce(rs, i.value);
    }
  }

  lemma LeftWithoutOverdue(rs: seq<Reservation>, i: Option<nat>, id: ReservationId, key: string, now: int)
    requires DistinctIds(rs) && i == Find(rs, id)
    ensures var left := if i.Some? && Overdue(rs[i.value], id, key, now) then rs[..i.value] + rs[i.value + 1..] else rs;
            forall r :: r in left <==> r in rs && !Overdue(r, id, key, now)
  {
    if i.None? || !Overdue(rs[i.value], id, key, now) {
      NothingOverdue(rs, i, id, key, now);
    } else {
      OverdueDropped(rs, i.value, key, now);
    }
  }

  lemma FoundAfterPruning(rs: seq<Reservation>, id: ReservationId, key: string, now: int)
    requires DistinctIds(rs)
    ensures match Find(Pruned(rs, now), id)
            case None => !CanStart(rs, id, key, now) && forall raid: RaidId :: !HasOutput(rs, id, key, now, raid)
            case Some(i) =>
              var r := Pruned(rs, now)[i];
              && (CanStart(rs, id, key, now) <==> r.key == key && r.output.None? && now < r.deadline * 1000)
              && (forall raid: RaidId :: HasOutput(rs, id, key, now, raid) <==> r.key == key && r.output == Some(raid))
  {
    var q := Pruned(rs, now);
    hide Pruned;
    match Find(q, id)
    case None =>
    case Some(i) =>
      var r := q[i];
      assert r in q;
      forall x | x in rs && x.id == id
        ensures x == r
      {
        var j: nat :| j < |rs| && rs[j] == x;
        OnlyOnce(rs, j);
      }
  }

  /** A spawn that is under way: its raid exists and is being saved; or its output is set, too. */
  datatype Flight = Saving(raid: RaidId) | Answering(raid: RaidId)

  datatype Answer = Joined | Rejected | Output(raid: RaidId) | Started

  /** The raids made for each reservation, and how often the save of one was rejected. */
  datatype Ledger = Ledger(made: map<ReservationId, seq<RaidId>>, rejections: map<ReservationId, nat>)

  function Made(l: Ledger, id: ReservationId): seq<RaidId> {
    if id in l.made then l.made[id] else []
  }

  function Rejections(l: Ledger, id: ReservationId): nat {
    if id in l.rejections then l.rejections[id] else 0
  }

  function OneMore(l: Ledger, id: ReservationId, raid: RaidId): (r: Ledger)
    ensures Made(r, id) == Made(l, id) + [raid] && Rejections(r, id) == Rejections(l, id)
  {
    Ledger(l.made[id := Made(l, id) + [raid]], l.rejections)
  }

  /** What is known of a reservation that is in the list. */
  ghost predicate Listed(r: Reservation, flights: map<ReservationId, Flight>, l: Ledger, nextReservation: nat) {
    && r.id < nextReservation
    && (match r.output
        case Some(raid) => Made(l, r.id) != [] && raid == Last(Made(l, r.id)) && (r.id in flights ==> flights[r.id] == Answering(raid))
        case None =>
          if r.id in flights then flights[r.id].Saving? && |Made(l, r.id)| == Rejections(l, r.id) + 1
          else |Made(l, r.id)| == Rejections(l, r.id))
  }

  function Last(s: seq<RaidId>): RaidId
    requires s != []
  {
    s[|s| - 1]
  }

  ghost predicate Consistent(rs: seq<Reservation>, flights: map<ReservationId, Flight>, l: Ledger, nextReservation: nat) {
    && DistinctIds(rs)
    && (forall r :: r in rs ==> Listed(r, flights, l, nextReservation))
    && (forall id :: id in flights ==> Made(l, id) != [] && flights[id].raid == Last(Made(l, id)) && id < nextReservation)
    && (forall id :: |Made(l, id)| <= Rejections(l, id) + 1)
    && (forall id :: id >= nextReservation ==> Made(l, id) == [] && Rejections(l, id) == 0)
  }

  /** Nobody is wanted beyond capacity. */
  ghost predicate WithinCapacity(raids: seq<Raid>, rs: seq<Reservation>, flights: map<ReservationId, Flight>, now: int, caps: Counts) {
    forall p :: Active(raids, p) + Held(rs, flights.Keys, now, p) <= Cap(caps, p)
  }

  /** A raid that goes on needs nobody it did not need before. */
  ghost predicate Settles(r: Raid, r': Raid) {
    forall p :: ActiveIn(r', p) <= ActiveIn(r, p)
  }

  /** Some assignments of a raid settle, and it may be over. */
  function GoOn(r: Raid, settled: set<ProviderId>, over: bool): Raid {
    r.(status := if over then Final else r.status,
       assignments := map p | p in r.assignments ::
         if p in settled && !Settled(r.assignments[p].status) then r.assignments[p].(status := Failed) else r.assignments[p])
  }

  lemma GoOnSettles(r: Raid, settled: set<ProviderId>, over: bool)
    ensures Settles(r, GoOn(r, settled, over))
  {
  }

  function SingleRaid(deadline: int, task: Planning.Task, primaries: seq<ProviderId>, reserves: seq<ProviderId>): Raid {
    NewRaid(None, deadline, task, None, primaries, reserves).(status := Sanitizing)
  }

  /** A raid of its own for these providers, field by field. */
  ghost predicate SingleFor(r: Raid, deadline: int, task: Planning.Task, primaries: seq<ProviderId>, reserves: seq<ProviderId>) {
    JustMade(r, None, deadline, task, None, primaries, reserves) && r.status == Sanitizing && r.children == []
  }

  lemma SingleRaidIs(deadline: int, task: Planning.Task, primaries: seq<ProviderId>, reserves: seq<ProviderId>)
    ensures SingleFor(SingleRaid(deadline, task, primaries, reserves), deadline, task, primaries, reserves)
  {
    NewRaidMade(None, deadline, task, None, primaries, reserves);
  }

  lemma SingleRaidNeeds(deadline: int, task: Planning.Task, primaries: seq<ProviderId>, reserves: seq<ProviderId>, p: ProviderId)
    ensures ActiveIn(SingleRaid(deadline, task, primaries, reserves), p) == if p in primaries || p in reserves then 1 else 0
  {
    assert p in primaries + reserves <==> p in primaries || p in reserves;
  }

  lemma OthersDiffer(rs: seq<Reservation>, i: nat)
    requires DistinctIds(rs) && i < |rs|
    ensures forall k :: 0 <= k < |rs| && k != i ==> rs[k].id != rs[i].id
  {
  }

  lemma OnlyOnce(rs: seq<Reservation>, i: nat)
    requires DistinctIds(rs) && i < |rs|
    ensures forall r :: r in rs && r.id == rs[i].id ==> r == rs[i]
  {
  }

  lemma SetOutputConsistent(rs: seq<Reservation>, flights: map<ReservationId, Flight>, l: Ledger, next: nat, i: nat)
    requires Consistent(rs, flights, l, next) && i < |rs| && rs[i].id in flights && flights[rs[i].id].Saving?
    ensures var raid := flights[rs[i].id].raid;
            Consistent(rs[i := rs[i].(output := Some(raid))], flights[rs[i].id := Answering(raid)], l, next)
  {
    var id := rs[i].id;
    var rs' := rs[i := rs[i].(output := Some(flights[id].raid))];
    var flights' := flights[id := Answering(flights[id].raid)];
    assert rs[i] in rs;
    forall r | r in rs'
      ensures Listed(r, flights', l, next)
    {
      var j: nat :| j < |rs'| && rs'[j] == r;
      assert rs[j] in rs;
      assert j != i ==> rs[j].id != id;
    }
  }

  lemma TakeOffConsistent(rs: seq<Reservation>, flights: map<ReservationId, Flight>, l: Ledger, next: nat, i: nat, raid: RaidId)
    requires Consistent(rs, flights, l, next) && i < |rs| && rs[i].id !in flights && rs[i].output.None?
    ensures var id := rs[i].id;
            Consistent(rs, flights[id := Saving(raid)], OneMore(l, id, raid), next)
  {
    var id := rs[i].id;
    var flights' := flights[id := Saving(raid)];
    var l' := OneMore(l, id, raid);
    assert rs[i] in rs;
    forall r | r in rs
      ensures Listed(r, flights', l', next)
    {
      OnlyOnce(rs, i);
      assert Listed(r, flights, l, next);
    }
    assert Listed(rs[i], flights, l, next);
    forall x: ReservationId
      ensures Made(l', x) == (if x == id then Made(l, x) + [raid] else Made(l, x)) && Rejections(l', x) == Rejections(l, x)
      ensures |Made(l', x)| <= Rejections(l', x) + 1 && (x >= next ==> Made(l', x) == [] && Rejections(l', x) == 0)
    {
      assert |Made(l, x)| <= Rejections(l, x) + 1;
    }
    forall x | x in flights'
      ensures Made(l', x) != [] && flights'[x].raid == Last(Made(l', x)) && x < next
    {
      assert x != id ==> x in flights;
    }
  }

  lemma RejectConsistent(rs: seq<Reservation>, flights: map<ReservationId, Flight>, l: Ledger, next: nat, id: ReservationId)
    requires Consistent(rs, flights, l, next) && id in flights && flights[id].Saving?
    ensures Consistent(rs, flights - {id}, Ledger(l.made, l.rejections[id := Rejections(l, id) + 1]), next)
  {
    var flights' := flights - {id};
    var l' := Ledger(l.made, l.rejections[id := Rejections(l, id) + 1]);
    forall r | r in rs
      ensures Listed(r, flights', l', next)
    {
      assert Listed(r, flights, l, next);
    }
    forall x: ReservationId
      ensures Made(l', x) == Made(l, x) && Rejections(l', x) == Rejections(l, x) + (if x == id then 1 else 0)
      ensures |Made(l', x)| <= Rejections(l', x) + 1 && (x >= next ==> Made(l', x) == [] && Rejections(l', x) == 0)
    {
      assert |Made(l, x)| <= Rejections(l, x) + 1;
    }
  }

  lemma AnswerConsistent(rs: seq<Reservation>, flights: map<ReservationId, Flight>, l: Ledger, next: nat, id: ReservationId)
    requires Consistent(rs, flights, l, next) && id in flights && forall r :: r in rs ==> r.id != id
    ensures Consistent(rs, flights[id := Answering(flights[id].raid)], l, next)
  {
    var flights' := flights[id := Answering(flights[id].raid)];
    forall r | r in rs
      ensures Listed(r, flights', l, next)
    {
      assert Listed(r, flights, l, next);
    }
  }

  /** A reservation that becomes a raid needs what it held. */
  lemma TakeOffCapacity(raids: seq<Raid>, rs: seq<Reservation>, flights: map<ReservationId, Flight>, now: int, caps: Counts,
                        i: nat, flight: Flight)
    requires WithinCapacity(raids, rs, flights, now, caps) && DistinctIds(rs) && i < |rs|
    requires rs[i].id !in flights && rs[i].output.None? && now < rs[i].expires
    ensures var r := rs[i];
            WithinCapacity(raids + [SingleRaid(r.deadline, r.task, r.primaries, r.reserves)], rs, flights[r.id := flight], now, caps)
  {
    hide SingleRaid, ActiveIn;
    var r := rs[i];
    var raid := SingleRaid(r.deadline, r.task, r.primaries, r.reserves);
    assert flights[r.id := flight].Keys == flights.Keys + {r.id};
    forall p
      ensures Active(raids + [raid], p) + Held(rs, flights[r.id := flight].Keys, now, p) <= Cap(caps, p)
    {
      ActiveAppend(raids, raid, p);
      SingleRaidNeeds(r.deadline, r.task, r.primaries, r.reserves, p);
      HeldTakeOff(rs, flights.Keys, now, i, p);
    }
  }

  lemma NothingMade(rs: seq<Reservation>, flights: map<ReservationId, Flight>, l: Ledger, next: nat, i: nat)
    requires Consistent(rs, flights, l, next) && i < |rs| && rs[i].id !in flights && rs[i].output.None?
    ensures |Made(l, rs[i].id)| == Rejections(l, rs[i].id)
  {
    assert Listed(rs[i], flights, l, next);
  }

  lemma OutputIs(rs: seq<Reservation>, flights: map<ReservationId, Flight>, l: Ledger, next: nat, i: nat)
    requires Consistent(rs, flights, l, next) && i < |rs| && rs[i].id !in flights && Rejections(l, rs[i].id) == 0
    ensures if rs[i].output.Some? then Made(l, rs[i].id) == [rs[i].output.value] else Made(l, rs[i].id) == []
  {
    assert Listed(rs[i], flights, l, next);
  }

  lemma PrunedHere(rs: seq<Reservation>, now: int, r: Reservation)
    requires r in Pruned(rs, now)
    ensures r.output.None? ==> now < r.expires
  {
  }

  lemma IdsDistinct(rs: seq<Reservation>, flights: map<ReservationId, Flight>, l: Ledger, next: nat)
    requires Consistent(rs, flights, l, next)
    ensures DistinctIds(rs)
  {
  }

  datatype Move =
    | Wait(elapsed: nat)
    | Persisted(ok: bool)
    | PruneAll
    | Reserving(route: string, key: string)
    | Reserve(route: string, key: string, deadline: int, hold: int, task: Planning.Task, primaries: seq<ProviderId>, reserves: seq<ProviderId>)
    | Spawn(id: ReservationId, key: string, hydrates: bool)
    | Saved(id: ReservationId, rejected: bool)
    | Answered(id: ReservationId, rejected: bool)
    | Direct(deadline: int, task: Planning.Task, primaries: seq<ProviderId>, reserves: seq<ProviderId>)
    | GoesOn(raid: nat, settled: set<ProviderId>, over: bool)

  class Launcher {
    var raids: seq<Raid>
    var reservations: seq<Reservation>
    var flights: map<ReservationId, Flight>
    var nextReservation: nat
    var now: int
    /** Whether the last save of anything succeeded: while it did not, no call is let in. */
    var healthy: bool
    const caps: Counts
    ghost var ledger: Ledger
    /** Whether a save of a new raid was ever rejected. */
    ghost var anyRejected: bool
    /** The outputs callers got for a reservation. */
    ghost var answers: map<ReservationId, set<RaidId>>

    ghost predicate Valid()
      reads this
    {
      && Consistent(reservations, flights, ledger, nextReservation)
      && (!anyRejected ==> WithinCapacity(raids, reservations, flights, now, caps) && forall id :: Rejections(ledger, id) == 0)
      && (!anyRejected ==> forall id, raid :: id in answers && raid in answers[id] ==> Made(ledger, id) == [raid])
    }

    constructor (caps: Counts)
      ensures this.caps == caps && raids == [] && reservations == [] && flights == map[]
      ensures Valid() && healthy && !anyRejected && forall id: ReservationId :: Made(ledger, id) == [] && Rejections(ledger, id) == 0
    {
      this.caps := caps;
      raids, reservations, flights, nextReservation, now, healthy := [], [], map[], 0, 0, true;
      ledger, anyRejected, answers := Ledger(map[], map[]), false, map[];
    }

    method Tick(elapsed: nat)
      requires Valid()
      modifies this`now
      ensures Valid() && now == old(now) + elapsed
    {
      forall p
        ensures Held(reservations, flights.Keys, now + elapsed, p) <= Held(reservations, flights.Keys, now, p)
      {
        HeldLater(reservations, flights.Keys, now, now + elapsed, p);
      }
      now := now + elapsed;
    }

    /** A save of anything is over. */
    method OtherSave(ok: bool)
      requires Valid()
      modifies this`healthy
      ensures Valid() && healthy == ok
    {
      healthy := ok;
    }

    /** A raid goes on (assignments settle, the raid becomes terminal). */
    method Progress(i: nat, r: Raid)
      requires Valid() && i < |raids| && Settles(raids[i], r)
      modifies this`raids
      ensures Valid() && raids == old(raids)[i := r]
    {
      forall p
        ensures Active(raids[i := r], p) <= Active(raids, p)
      {
        ActiveUpdate(raids, i, r, p);
      }
      raids := raids[i := r];
    }

    method Prune()
      requires Valid()
      modifies this`reservations
      ensures Valid() && reservations == Pruned(old(reservations), now)
    {
      PrunedDistinct(reservations, now);
      forall p
        ensures Held(Pruned(reservations, now), flights.Keys, now, p) == Held(reservations, flights.Keys, now, p)
      {
        PrunedHeld(reservations, flights.Keys, now, p);
      }
      reservations := Pruned(reservations, now);
    }

    /** `reserveRaidLaunch` up to the preparation of the raid. */
    method ReserveHead(route: string, key: string) returns (refused: bool, existing: Option<Reservation>)
      requires Valid()
      modifies this`reservations
      ensures Valid() && refused == !healthy
      ensures reservations == if refused then old(reservations) else Pruned(old(reservations), now)
      ensures existing.Some? <==> !refused && exists x :: x in old(reservations) && !Prunable(x, now) && x.route == route && x.key == key && now < x.expires
      ensures existing.Some? ==> existing.value in reservations && existing.value.key == key && existing.value.route == route
      ensures existing.Some? ==>
                exists k :: 0 <= k < |reservations| && reservations[k] == existing.value && Fits(existing.value, route, key, now)
                            && forall j :: 0 <= j < k ==> !Fits(reservations[j], route, key, now)
    {
      if !healthy {
        return true, None;
      }
      refused := false;
      Prune();
      existing := Reusable(reservations, route, key, now);
      ReusableIsFirst(reservations, route, key, now);
    }

    /** `assertPreparedProvidersHaveCapacity` */
    method CheckCapacity(providers: set<ProviderId>) returns (ok: bool)
      requires Valid()
      ensures ok <==> forall p :: p in providers ==> p in caps && Active(raids, p) + Held(reservations, {}, now, p) < Cap(caps, p)
    {
      var counts := BuildCounts(raids, reservations, now);
      ok := HaveCapacity(caps, counts, providers);
    }

    /** `reserveRaidLaunch` from the prepared raid on; `None` when somebody has no capacity left. */
    method ReserveTail(route: string, key: string, deadline: int, hold: int, task: Planning.Task,
                       primaries: seq<ProviderId>, reserves: seq<ProviderId>)
      returns (made: Option<Reservation>)
      requires Valid()
      modifies this`reservations, this`nextReservation
      ensures Valid()
      ensures made.Some? <==> Room(raids, old(reservations), now, caps, primaries, reserves)
      ensures made.None? ==> reservations == old(reservations) && nextReservation == old(nextReservation)
      ensures made.Some? ==>
                && reservations == old(reservations) + [made.value] && made.value.id == old(nextReservation)
                && made.value.route == route && made.value.key == key && made.value.output.None?
                && made.value.primaries == primaries && made.value.reserves == reserves && made.value.deadline == deadline
                && made.value.task == task
                && made.value.created == now && made.value.expires == (if hold < deadline then hold else deadline) * 1000
    {
      var r := Reservation(nextReservation, route, key, now, (if hold < deadline then hold else deadline) * 1000, deadline,
                           task, primaries, reserves, None);
      var ok := CheckCapacity(Providers(r));
      if !ok {
        return None;
      }
      forall p
        ensures Held(reservations + [r], flights.Keys, now, p) == Held(reservations, flights.Keys, now, p)
                  + if r.id !in flights.Keys && Holds(r, now, p) then 1 else 0
        ensures Held(reservations, flights.Keys, now, p) <= Held(reservations, {}, now, p)
      {
        HeldAppend(reservations, r, flights.Keys, now, p);
        HeldFewer(reservations, flights.Keys, now, p);
      }
      forall i | 0 <= i < |reservations|
        ensures reservations[i].id < nextReservation
      {
        assert reservations[i] in reservations;
      }
      reservations := reservations + [r];
      nextReservation := nextReservation + 1;
      made := Some(r);
    }

    /** `spawnReservedRaid` up to the first pause. A caller joins a spawn that is under way; gets
        the output of one that is over; or starts one, if the reservation is there, fits the
        request and has not expired, and its providers are still registered. */
    method SpawnHead(id: ReservationId, key: string, hydrates: bool) returns (answer: Answer)
      requires Valid()
      modifies this`raids, this`reservations, this`flights, this`ledger, this`answers
      ensures Valid()
      ensures answer.Joined? <==> id in old(flights)
      ensures answer.Started? <==> id !in old(flights) && healthy && hydrates && CanStart(old(reservations), id, key, now)
      ensures forall raid: RaidId :: answer == Output(raid) <==> id !in old(flights) && healthy && HasOutput(old(reservations), id, key, now, raid)
      ensures answer.Started? ==>
                && |raids| == |old(raids)| + 1 && raids[..|old(raids)|] == old(raids)
                && reservations == Pruned(old(reservations), now)
                && flights == old(flights)[id := Saving(|old(raids)|)] && ledger == OneMore(old(ledger), id, |old(raids)|)
                && |Made(old(ledger), id)| == Rejections(old(ledger), id)
                && exists r :: r in old(reservations) && r.id == id && r.key == key
                               && SingleFor(raids[|old(raids)|], r.deadline, r.task, r.primaries, r.reserves)
      ensures !answer.Started? ==> raids == old(raids) && ledger == old(ledger) && flights == old(flights)
      ensures answer.Joined? || !healthy ==> reservations == old(reservations)
      ensures !answer.Joined? && healthy ==>
                forall r :: r in reservations <==> r in old(reservations) && !Prunable(r, now) && !Overdue(r, id, key, now)
    {
      hide Consistent, WithinCapacity, Held, Active, DistinctIds, Prunable, CanStart, HasOutput, OneMore, Find, Pruned, SingleRaid, SingleFor;
      if id in flights {
        return Joined;
      }
      if !healthy {
        return Rejected;
      }
      IdsDistinct(reservations, flights, ledger, nextReservation);
      FoundAfterPruning(reservations, id, key, now);
      PrunedDistinct(reservations, now);
      Prune();
      var i := Find(reservations, id);
      LeftWithoutOverdue(reservations, i, id, key, now);
      if i.None? || reservations[i.value].key != key {
        return Rejected;
      }
      var r := reservations[i.value];
      PrunedHere(old(reservations), now, r);
      if !anyRejected {
        OutputIs(reservations, flights, ledger, nextReservation, i.value);
      }
      if r.output.Some? {
        GiveAnswer(id, r.output.value);
        return Output(r.output.value);
      }
      if r.deadline * 1000 <= now {
        Drop(i.value);
        return Rejected;
      }
      if !hydrates {
        return Rejected;
      }
      NothingMade(reservations, flights, ledger, nextReservation, i.value);
      SingleRaidIs(r.deadline, r.task, r.primaries, r.reserves);
      assert r in old(reservations) && r.id == id;
      TakeOff(i.value);
      assert SingleFor(raids[|old(raids)|], r.deadline, r.task, r.primaries, r.reserves);
      answer := Started;
    }

    ghost method GiveAnswer(id: ReservationId, raid: RaidId)
      requires Valid() && (!anyRejected ==> Made(ledger, id) == [raid])
      modifies this`answers
      ensures Valid() && answers == old(answers)[id := (if id in old(answers) then old(answers)[id] else {}) + {raid}]
    {
      answers := answers[id := (if id in answers then answers[id] else {}) + {raid}];
    }

    /** The reservation expired before it was paid for. */
    method Drop(i: nat)
      requires Valid() && i < |reservations|
      modifies this`reservations
      ensures Valid() && reservations == old(reservations)[..i] + old(reservations)[i + 1..]
    {
      var rs := reservations[..i] + reservations[i + 1..];
      forall p
        ensures Held(rs, flights.Keys, now, p) <= Held(reservations, flights.Keys, now, p)
      {
        HeldDrop(reservations, flights.Keys, now, i, p);
      }
      assert forall r :: r in rs ==> r in reservations;
      reservations := rs;
    }

    /** `spawnPreparedRaid` for a reservation, up to its pause. */
    method TakeOff(i: nat)
      requires Valid() && i < |reservations| && reservations[i].output.None? && now < reservations[i].expires
      requires reservations[i].id !in flights
      modifies this`raids, this`flights, this`ledger
      ensures Valid()
      ensures var r := reservations[i];
              && raids == old(raids) + [SingleRaid(r.deadline, r.task, r.primaries, r.reserves)]
              && flights == old(flights)[r.id := Saving(|old(raids)|)]
              && ledger == OneMore(old(ledger), r.id, |old(raids)|)
    {
      hide Consistent, DistinctIds, WithinCapacity, SingleRaid, ActiveIn;
      var r := reservations[i];
      var raid := SingleRaid(r.deadline, r.task, r.primaries, r.reserves);
      NothingMade(reservations, flights, ledger, nextReservation, i);
      IdsDistinct(reservations, flights, ledger, nextReservation);
      if !anyRejected {
        TakeOffCapacity(raids, reservations, flights, now, caps, i, Saving(|raids|));
      }
      assert r in reservations;
      var id := |raids|;
      TakeOffConsistent(reservations, flights, ledger, nextReservation, i, id);
      raids := raids + [raid];
      flights := flights[r.id := Saving(id)];
      ghost var before := ledger;
      ledger := OneMore(ledger, r.id, id);
      forall x: ReservationId
        ensures Rejections(ledger, x) == Rejections(before, x) && (x != r.id ==> Made(ledger, x) == Made(before, x))
      {
      }
    }

    /** The save of the new raid is over. If it was rejected the spawn fails, but the raid stays. */
    method SpawnSaved(id: ReservationId, rejected: bool)
      requires Valid() && id in flights && flights[id].Saving?
      modifies this`reservations, this`flights, this`ledger, this`anyRejected
      ensures Valid() && anyRejected == (old(anyRejected) || rejected) && ledger.made == old(ledger.made)
      ensures !rejected ==> flights == old(flights)[id := Answering(old(flights)[id].raid)] && ledger == old(ledger)
      ensures !rejected ==>
                && |reservations| == |old(reservations)|
                && forall i :: 0 <= i < |reservations| ==>
                     var r := old(reservations)[i];
                     reservations[i] == if r.id == id then r.(output := Some(old(flights)[id].raid)) else r
      ensures rejected ==>
                && flights == old(flights) - {id} && reservations == old(reservations)
                && ledger.rejections == old(ledger).rejections[id := Rejections(old(ledger), id) + 1]
    {
      hide Consistent, Active, DistinctIds;
      if rejected {
        RejectConsistent(reservations, flights, ledger, nextReservation, id);
        anyRejected := true;
        flights := flights - {id};
        ledger := Ledger(ledger.made, ledger.rejections[id := Rejections(ledger, id) + 1]);
        return;
      }
      var raid := flights[id].raid;
      var i := Find(reservations, id);
      assert flights[id := Answering(raid)].Keys == flights.Keys;
      IdsDistinct(reservations, flights, ledger, nextReservation);
      assert i.None? ==> forall k :: 0 <= k < |reservations| ==> reservations[k] in reservations && reservations[k].id != id;
      if i.Some? {
        OthersDiffer(reservations, i.value);
        SetOutputConsistent(reservations, flights, ledger, nextReservation, i.value);
        var r := reservations[i.value].(output := Some(raid));
        forall p
          ensures Held(reservations[i.value := r], flights.Keys, now, p) == Held(reservations, flights.Keys, now, p)
        {
          HeldSet(reservations, flights.Keys, now, i.value, r, p);
        }
        reservations := reservations[i.value := r];
      } else {
        AnswerConsistent(reservations, flights, ledger, nextReservation, id);
      }
      flights := flights[id := Answering(raid)];
    }

    /** The output is saved, too, or that save was rejected; the callers hear. */
    method SpawnAnswered(id: ReservationId, rejected: bool) returns (answer: Answer)
      requires Valid() && id in flights && flights[id].Answering?
      modifies this`flights, this`answers
      ensures Valid() && flights == old(flights) - {id}
      ensures answer == if rejected then Rejected else Output(old(flights)[id].raid)
    {
      var raid := flights[id].raid;
      forall p
        ensures Held(reservations, flights.Keys - {id}, now, p) == Held(reservations, flights.Keys, now, p)
      {
        HeldLand(reservations, flights.Keys, now, id, p);
      }
      flights := flights - {id};
      if rejected {
        return Rejected;
      }
      GiveAnswer(id, raid);
      answer := Output(raid);
    }

    /** `spawnRaid` from the prepared raid on. */
    method SpawnDirect(deadline: int, task: Planning.Task, primaries: seq<ProviderId>, reserves: seq<ProviderId>) returns (raid: Option<RaidId>)
      requires Valid()
      modifies this`raids
      ensures Valid()
      ensures raid.Some? <==> Room(old(raids), reservations, now, caps, primaries, reserves)
      ensures raids == if raid.None? then old(raids) else old(raids) + [SingleRaid(deadline, task, primaries, reserves)]
      ensures raid.Some? ==> raid.value == |old(raids)| && SingleFor(raids[|old(raids)|], deadline, task, primaries, reserves)
    {
      var providers := (set p | p in primaries) + (set p | p in reserves);
      var ok := CheckCapacity(providers);
      if !ok {
        return None;
      }
      var r := SingleRaid(deadline, task, primaries, reserves);
      forall p
        ensures Active(raids + [r], p) == Active(raids, p) + if p in providers then 1 else 0
        ensures Held(reservations, flights.Keys, now, p) <= Held(reservations, {}, now, p)
      {
        ActiveAppend(raids, r, p);
        SingleRaidNeeds(deadline, task, primaries, reserves, p);
        HeldFewer(reservations, flights.Keys, now, p);
      }
      SingleRaidIs(deadline, task, primaries, reserves);
      raids := raids + [r];
      raid := Some(|raids| - 1);
    }

    method Play(m: Move) returns (event: Event)
      requires Valid()
      modifies this`raids, this`reservations, this`flights, this`nextReservation, this`now, this`healthy, this`ledger, this`answers, this`anyRejected
      ensures Valid() && (anyRejected ==> old(anyRejected) || (m.Saved? && m.rejected)) && |raids| >= |old(raids)|
      ensures match event
              case SpawnStarted(id) =>
                (exists raid: RaidId :: ledger == OneMore(old(ledger), id, raid)) && |Made(old(ledger), id)| == Rejections(old(ledger), id)
              case SaveRejected(id) => ledger == Ledger(old(ledger).made, old(ledger).rejections[id := Rejections(old(ledger), id) + 1])
              case Else => ledger == old(ledger)
    {
      hide Consistent, WithinCapacity, Settles, OneMore;
      event := Else;
      match m
      case Wait(elapsed) => Tick(elapsed);
      case Persisted(ok) => OtherSave(ok);
      case PruneAll => Prune();
      case Reserving(route, key) => var refused, existing := ReserveHead(route, key);
      case Reserve(route, key, deadline, hold, task, primaries, reserves) =>
        var made := ReserveTail(route, key, deadline, hold, task, primaries, reserves);
      case Spawn(id, key, hydrates) =>
        var answer := SpawnHead(id, key, hydrates);
        event := if answer.Started? then SpawnStarted(id) else Else;
      case Saved(id, rejected) =>
        if id in flights && flights[id].Saving? {
          SpawnSaved(id, rejected);
          event := if rejected then SaveRejected(id) else Else;
        }
      case Answered(id, rejected) => if id in flights && flights[id].Answering? { var answer := SpawnAnswered(id, rejected); }
      case Direct(deadline, task, primaries, reserves) => var raid := SpawnDirect(deadline, task, primaries, reserves);
      case GoesOn(i, settled, over) =>
        if i < |raids| {
          GoOnSettles(raids[i], settled, over);
          Progress(i, GoOn(raids[i], settled, over));
        }
    }

    /** Over every interleaving, rejected saves or not: a reservation none of whose saves was
        rejected before yields at most one raid if and only if no spawn of it starts after the save
        of an earlier one was rejected. */
    method RunAny(moves: seq<Move>) returns (log: seq<Event>)
      requires Valid()
      modifies this`raids, this`reservations, this`flights, this`nextReservation, this`now, this`healthy, this`ledger, this`answers, this`anyRejected
      ensures Valid() && |log| == |moves|
      ensures forall id: ReservationId :: Rejections(old(ledger), id) == 0 ==>
                (|Made(ledger, id)| <= 1 <==> !Restarted(log, id))
    {
      hide Consistent, WithinCapacity, Restarted, AnyRejected;
      log := [];
      MadeAtMostOnce(reservations, flights, ledger, nextReservation);
      NothingLogged();
      for k := 0 to |moves|
        invariant Valid() && |log| == k
        invariant forall id: ReservationId :: Rejections(old(ledger), id) == 0 ==> Explained(ledger, log, id)
      {
        ghost var before := ledger;
        var event := Play(moves[k]);
        forall id: ReservationId | Rejections(old(ledger), id) == 0
          ensures Explained(ledger, log + [event], id)
        {
          ExplainedNext(before, ledger, log, event, id);
        }
        log := log + [event];
      }
    }

    /** Over every interleaving in which no save of a new raid is rejected: a reservation yields
        at most one raid, all callers that got an output got the same, and nobody is wanted beyond
        capacity. */
    method Run(moves: seq<Move>)
      requires Valid() && !anyRejected
      requires forall k :: 0 <= k < |moves| ==> !(moves[k].Saved? && moves[k].rejected)
      modifies this`raids, this`reservations, this`flights, this`nextReservation, this`now, this`healthy, this`ledger, this`answers, this`anyRejected
      ensures Valid() && !anyRejected
      ensures forall id: ReservationId :: |Made(ledger, id)| <= 1
      ensures forall id: ReservationId, a: RaidId, b: RaidId ::
                id in answers && a in answers[id] && b in answers[id] ==> a == b && Made(ledger, id) == [a]
      ensures forall p :: Active(raids, p) + Held(reservations, flights.Keys, now, p) <= Cap(caps, p)
    {
      for k := 0 to |moves|
        invariant Valid() && !anyRejected
      {
        var event := Play(moves[k]);
      }
      forall id: ReservationId
        ensures |Made(ledger, id)| <= 1
      {
        assert Rejections(ledger, id) == 0;
      }
      forall id: ReservationId, a: RaidId, b: RaidId | id in answers && a in answers[id] && b in answers[id]
        ensures a == b && Made(ledger, id) == [a]
      {
        assert Made(ledger, id) == [a] && Made(ledger, id) == [b];
        assert [a][0] == [b][0];
      }
    }

    /** A rejected save leaves its raid behind: once another save has succeeded the reservation can
        be spawned again, and a second raid is made for it. */
    method RejectedSaveSpawnsTwice(id: ReservationId, key: string) returns (first: Answer, second: Answer)
      requires Valid() && healthy && id !in flights && CanStart(reservations, id, key, now)
      modifies this`raids, this`reservations, this`flights, this`healthy, this`ledger, this`answers, this`anyRejected
      ensures Valid() && first.Started? && second.Started?
      ensures |raids| == |old(raids)| + 2 && Made(ledger, id) == Made(old(ledger), id) + [|old(raids)|, |old(raids)| + 1]
    {
      hide *;
      first := SpawnHead(id, key, true);
      ghost var once := ledger;
      OtherSave(false);
      SpawnSaved(id, true);
      StartsAgain(old(reservations), id, key, now);
      OtherSave(true);
      ghost var between := ledger;
      second := SpawnHead(id, key, true);
      MadeTwice(old(ledger), once, between, ledger, id, |old(raids)|);
    }
  }

  lemma MadeTwice(l0: Ledger, l1: Ledger, l2: Ledger, l3: Ledger, id: ReservationId, raid: RaidId)
    requires l1 == OneMore(l0, id, raid) && l2.made == l1.made && l3 == OneMore(l2, id, raid + 1)
    ensures Made(l3, id) == Made(l0, id) + [raid, raid + 1]
  {
  }

  lemma StartsAgain(rs: seq<Reservation>, id: ReservationId, key: string, now: int)
    requires CanStart(rs, id, key, now)
    ensures CanStart(Pruned(rs, now), id, key, now)
  {
  }

  // ----- runs with rejected saves

  datatype Event = SpawnStarted(id: ReservationId) | SaveRejected(id: ReservationId) | Else

  predicate AnyRejected(log: seq<Event>, id: ReservationId) {
    exists j :: 0 <= j < |log| && log[j] == SaveRejected(id)
  }

  /** A spawn started although the save of an earlier one was rejected. */
  predicate Restarted(log: seq<Event>, id: ReservationId) {
    exists k :: 0 <= k < |log| && log[k] == SpawnStarted(id) && AnyRejected(log[..k], id)
  }

  ghost predicate Explained(l: Ledger, log: seq<Event>, id: ReservationId) {
    && (Rejections(l, id) > 0 <==> AnyRejected(log, id))
    && (|Made(l, id)| > 1 <==> Restarted(log, id))
  }

  lemma NothingLogged()
    ensures forall id :: !AnyRejected([], id) && !Restarted([], id)
  {
  }

  lemma MadeAtMostOnce(rs: seq<Reservation>, flights: map<ReservationId, Flight>, l: Ledger, next: nat)
    requires Consistent(rs, flights, l, next)
    ensures forall id: ReservationId :: |Made(l, id)| <= Rejections(l, id) + 1
  {
  }

  lemma LogOne(log: seq<Event>, event: Event, id: ReservationId)
    ensures AnyRejected(log + [event], id) <==> AnyRejected(log, id) || event == SaveRejected(id)
    ensures Restarted(log + [event], id) <==> Restarted(log, id) || (event == SpawnStarted(id) && AnyRejected(log, id))
  {
    var more := log + [event];
    assert more[|log|] == event;
    if j :| 0 <= j < |log| && log[j] == SaveRejected(id) {
      assert more[j] == SaveRejected(id);
    }
    hide AnyRejected;
    assert forall k :: 0 <= k <= |log| ==> more[..k] == log[..k];
    if Restarted(log, id) {
      var k :| 0 <= k < |log| && log[k] == SpawnStarted(id) && AnyRejected(log[..k], id);
      assert more[k] == SpawnStarted(id) && AnyRejected(more[..k], id);
    }
    assert log[..|log|] == log;
  }

  lemma ExplainedNext(l: Ledger, l': Ledger, log: seq<Event>, event: Event, id: ReservationId)
    requires Explained(l, log, id)
    requires match event
             case SpawnStarted(x) => (exists raid: RaidId :: l' == OneMore(l, x, raid)) && |Made(l, x)| == Rejections(l, x)
             case SaveRejected(x) => l' == Ledger(l.made, l.rejections[x := Rejections(l, x) + 1])
             case Else => l' == l
    ensures Explained(l', log + [event], id)
  {
    hide AnyRejected, Restarted;
    LogOne(log, event, id);
  }
}
