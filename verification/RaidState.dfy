/** Raid records, their assignment machine and the ranking of submissions
    (apps/orchestrator/src/raid-state.ts). */
module RaidState {
  import opened Options
  import Planning

  type RaidId = nat
  type ProviderId = string

  datatype RaidStatus =
    Sanitizing | Queued | Dispatching | Running | FirstValid | Evaluating | Final | Cancelled | Expired

  predicate Terminal(s: RaidStatus) {
    s.Final? || s.Cancelled? || s.Expired?
  }

  datatype AssignmentStatus =
    Selected | Invited | Accepted | Working | Submitted | Invalid | TimedOut | Failed | Disqualified

  /** The terminal assignment statuses. */
  predicate Settled(s: AssignmentStatus) {
    s.Submitted? || s.Invalid? || s.TimedOut? || s.Failed? || s.Disqualified?
  }

  datatype Assignment = Assignment(status: AssignmentStatus, runId: Option<string>)

  /** A ranked submission: the fields that decide its place, and the place itself. */
  datatype Entry = Entry(provider: ProviderId, content: string, valid: bool, score: real, test: real,
                         safety: real, rank: nat)

  datatype Strategy = Expand | Repair
  datatype Revision = Revision(target: RaidId, parent: RaidId, workstream: string, strategy: Strategy, spawned: RaidId)
  datatype Adaptive = Adaptive(available: seq<ProviderId>, plannedReserve: nat, revisionCount: nat,
                               maxRevisions: nat, spawned: seq<RaidId>, history: seq<Revision>)

  datatype Raid = Raid(
    parent: Option<RaidId>,
    children: seq<RaidId>,
    deadline: int,
    task: Planning.Task,
    status: RaidStatus,
    selected: seq<ProviderId>,
    reserves: seq<ProviderId>,
    assignments: map<ProviderId, Assignment>,
    ranked: seq<Entry>,
    firstValid: Option<ProviderId>,
    primary: Option<ProviderId>,
    workstream: Option<string>,
    planning: Option<Adaptive>)

  /** `createRaidRecord` */
  function NewRaid(parent: Option<RaidId>, deadline: int, task: Planning.Task, workstream: Option<string>,
                   primaries: seq<ProviderId>, reserves: seq<ProviderId>): Raid {
    Raid(parent, [], deadline, task, Queued, primaries, reserves,
         map p | p in primaries + reserves :: Assignment(Selected, None), [], None, None, workstream, None)
  }

  /** A raid that was just made: nobody has been invited, nothing has come in. */
  ghost predicate JustMade(r: Raid, parent: Option<RaidId>, deadline: int, task: Planning.Task, workstream: Option<string>,
                     primaries: seq<ProviderId>, reserves: seq<ProviderId>) {
    && r.parent == parent && r.deadline == deadline && r.task == task && r.workstream == workstream
    && r.selected == primaries && r.reserves == reserves
    && (forall p :: p in r.assignments <==> p in primaries || p in reserves)
    && (forall p :: p in r.assignments ==> r.assignments[p] == Assignment(Selected, None))
    && r.ranked == [] && r.firstValid.None? && r.primary.None? && r.planning.None?
  }

  lemma NewRaidMade(parent: Option<RaidId>, deadline: int, task: Planning.Task, workstream: Option<string>,
                    primaries: seq<ProviderId>, reserves: seq<ProviderId>)
    ensures var r := NewRaid(parent, deadline, task, workstream, primaries, reserves);
            JustMade(r, parent, deadline, task, workstream, primaries, reserves) && r.status == Queued && r.children == []
  {
    assert forall p :: p in primaries + reserves <==> p in primaries || p in reserves;
  }

  // ----- ranking

  /** Negative comparator: `a` is strictly better than `b`. */
  predicate Better(a: Entry, b: Entry) {
    if a.score != b.score then a.score > b.score
    else if a.test != b.test then a.test > b.test
    else if a.safety != b.safety then a.safety > b.safety
    else |a.content| < |b.content|
  }

  /** Stable insertion: after everything that is at least as good. */
  function Insert(sorted: seq<Entry>, e: Entry): (r: seq<Entry>)
    ensures |r| == |sorted| + 1
  {
    if sorted == [] || !Better(e, sorted[|sorted| - 1]) then sorted + [e]
    else Insert(sorted[..|sorted| - 1], e) + [sorted[|sorted| - 1]]
  }

  function Sort(entries: seq<Entry>): (r: seq<Entry>)
    ensures |r| == |entries|
  {
    if entries == [] then [] else Insert(Sort(entries[..|entries| - 1]), entries[|entries| - 1])
  }

  function Renumber(entries: seq<Entry>): (r: seq<Entry>)
    ensures |r| == |entries| && forall i :: 0 <= i < |r| ==> r[i] == entries[i].(rank := i + 1)
  {
    seq(|entries|, i requires 0 <= i < |entries| => entries[i].(rank := i + 1))
  }

  /** `rankSubmissions` */
  function Rank(entries: seq<Entry>): seq<Entry> {
    Renumber(Sort(entries))
  }

  /** The submissions of a ranking, places aside. */
  function Unranked(entries: seq<Entry>): multiset<Entry> {
    if entries == [] then multiset{}
    else Unranked(entries[..|entries| - 1]) + multiset{entries[|entries| - 1].(rank := 0)}
  }

  predicate Ordered(entries: seq<Entry>) {
    forall i, j :: 0 <= i < j < |entries| ==> !Better(entries[j], entries[i])
  }

  lemma {:induction false} UnrankedAppend(a: seq<Entry>, b: seq<Entry>)
    ensures Unranked(a + b) == Unranked(a) + Unranked(b)
  {
    if b == [] {
      assert a + b == a;
    } else {
      assert (a + b)[..|a + b| - 1] == a + b[..|b| - 1];
      UnrankedAppend(a, b[..|b| - 1]);
    }
  }

  lemma {:induction false} InsertKeeps(sorted: seq<Entry>, e: Entry)
    ensures Unranked(Insert(sorted, e)) == Unranked(sorted) + multiset{e.(rank := 0)}
  {
    if sorted == [] || !Better(e, sorted[|sorted| - 1]) {
      assert (sorted + [e])[..|sorted|] == sorted;
    } else {
      var front, last := sorted[..|sorted| - 1], sorted[|sorted| - 1];
      InsertKeeps(front, e);
      assert (Insert(front, e) + [last])[..|sorted|] == Insert(front, e);
    }
  }

  lemma {:induction false} InsertOrders(sorted: seq<Entry>, e: Entry)
    requires Ordered(sorted)
    ensures Ordered(Insert(sorted, e))
    ensures forall x :: x in Insert(sorted, e) <==> x in sorted || x == e
  {
    if sorted == [] || !Better(e, sorted[|sorted| - 1]) {
      forall i | 0 <= i < |sorted|
        ensures !Better(e, sorted[i])
      {
        assert !Better(sorted[|sorted| - 1], sorted[i]);
      }
    } else {
      var front, last := sorted[..|sorted| - 1], sorted[|sorted| - 1];
      InsertOrders(front, e);
      assert forall x :: x in front ==> !Better(last, x);
      var r := Insert(front, e);
      assert forall i :: 0 <= i < |r| ==> r[i] in front || r[i] == e;
    }
  }

  lemma {:induction false} SortOrders(entries: seq<Entry>)
    ensures Ordered(Sort(entries)) && Unranked(Sort(entries)) == Unranked(entries)
  {
    if entries != [] {
      var front := entries[..|entries| - 1];
      SortOrders(front);
      InsertOrders(Sort(front), entries[|entries| - 1]);
      InsertKeeps(Sort(front), entries[|entries| - 1]);
    }
  }

  lemma {:induction false} RenumberKeeps(entries: seq<Entry>)
    ensures Unranked(Renumber(entries)) == Unranked(entries)
  {
    hide Better;
    if entries != [] {
      var n := |entries| - 1;
      RenumberKeeps(entries[..n]);
      assert Renumber(entries)[..n] == Renumber(entries[..n]);
    }
  }

  lemma RenumberOrders(entries: seq<Entry>)
    requires Ordered(entries)
    ensures Ordered(Renumber(entries))
  {
    var r := Renumber(entries);
    forall i, j | 0 <= i < j < |r|
      ensures !Better(r[j], r[i])
    {
      assert !Better(entries[j], entries[i]);
    }
  }

  /** Ranking orders the submissions best first, numbers them from one and keeps each of them. */
  lemma RankIsSortedPermutation(entries: seq<Entry>)
    ensures Ordered(Rank(entries)) && Unranked(Rank(entries)) == Unranked(entries) && |Rank(entries)| == |entries|
    ensures forall i :: 0 <= i < |entries| ==> Rank(entries)[i].rank == i + 1
  {
    SortOrders(entries);
    RenumberKeeps(Sort(entries));
    RenumberOrders(Sort(entries));
  }

  /** What best first means: from the top down the scores never rise; among equal scores the test
      scores never rise, among equal ones of those the safety scores, and among equal ones of those
      the contents get no shorter. */
  lemma RankDescends(entries: seq<Entry>, i: nat, j: nat)
    requires i < j < |entries| == |Rank(entries)|
    ensures var a, b := Rank(entries)[i], Rank(entries)[j];
            && a.score >= b.score
            && (a.score == b.score ==> a.test >= b.test)
            && (a.score == b.score && a.test == b.test ==> a.safety >= b.safety)
            && (a.score == b.score && a.test == b.test && a.safety == b.safety ==> |a.content| <= |b.content|)
  {
    RankIsSortedPermutation(entries);
    hide Rank;
  }

  /** The submissions that agree in all four, places aside. */
  function Alike(entries: seq<Entry>, e: Entry): seq<Entry> {
    if entries == [] then []
    else
      var last := entries[|entries| - 1];
      Alike(entries[..|entries| - 1], e)
      + if last.score == e.score && last.test == e.test && last.safety == e.safety && |last.content| == |e.content|
        then [last.(rank := 0)] else []
  }

  lemma {:induction false} InsertStable(sorted: seq<Entry>, x: Entry, e: Entry)
    ensures Alike(Insert(sorted, x), e) == Alike(sorted + [x], e)
  {
    assert (sorted + [x])[..|sorted|] == sorted;
    if sorted != [] && Better(x, sorted[|sorted| - 1]) {
      var front, last := sorted[..|sorted| - 1], sorted[|sorted| - 1];
      InsertStable(front, x, e);
      assert (front + [x])[..|front|] == front;
      assert (Insert(front, x) + [last])[..|sorted|] == Insert(front, x);
    }
  }

  /** Submissions that agree in all four stay in the order in which they came. */
  lemma {:induction false} SortStable(entries: seq<Entry>, e: Entry)
    ensures Alike(Sort(entries), e) == Alike(entries, e)
  {
    if entries != [] {
      var front, last := entries[..|entries| - 1], entries[|entries| - 1];
      SortStable(front, e);
      InsertStable(Sort(front), last, e);
      assert (Sort(front) + [last])[..|front|] == Sort(front);
    }
  }

  lemma {:induction false} RenumberAlike(entries: seq<Entry>, e: Entry)
    ensures Alike(Renumber(entries), e) == Alike(entries, e)
  {
    if entries != [] {
      var n := |entries| - 1;
      RenumberAlike(entries[..n], e);
      assert Renumber(entries)[..n] == Renumber(entries[..n]);
    }
  }

  lemma RankStable(entries: seq<Entry>, e: Entry)
    ensures Alike(Rank(entries), e) == Alike(entries, e)
  {
    SortStable(entries, e);
    RenumberAlike(Sort(entries), e);
  }

  lemma {:induction false} SortOfOrdered(entries: seq<Entry>)
    requires Ordered(entries)
    ensures Sort(entries) == entries
  {
    if entries != [] {
      SortOfOrdered(entries[..|entries| - 1]);
    }
  }

  /** Ranking a ranking again changes nothing. */
  lemma RankIdempotent(entries: seq<Entry>)
    ensures Rank(Rank(entries)) == Rank(entries)
  {
    RankIsSortedPermutation(entries);
    SortOfOrdered(Rank(entries));
  }

  function FirstValidOf(entries: seq<Entry>): (p: Option<ProviderId>)
    ensures p.Some? <==> exists e :: e in entries && e.valid
  {
    if entries == [] then None
    else if entries[0].valid then Some(entries[0].provider)
    else
      assert forall e :: e in entries <==> e == entries[0] || e in entries[1..];
      FirstValidOf(entries[1..])
  }

  /** It is the first valid one. */
  lemma {:induction false} FirstValidIs(entries: seq<Entry>)
    ensures match FirstValidOf(entries)
            case None => forall k :: 0 <= k < |entries| ==> !entries[k].valid
            case Some(p) => exists k :: 0 <= k < |entries| && entries[k].valid && entries[k].provider == p
                                        && forall j :: 0 <= j < k ==> !entries[j].valid
  {
    if entries != [] && !entries[0].valid {
      FirstValidIs(entries[1..]);
      if FirstValidOf(entries).Some? {
        var k: nat :| k < |entries| - 1 && entries[1..][k].valid && entries[1..][k].provider == FirstValidOf(entries).value
                      && forall j :: 0 <= j < k ==> !entries[1..][j].valid;
        assert forall j :: 1 <= j < k + 1 ==> entries[j] == entries[1..][j - 1];
        assert entries[k + 1].valid && entries[k + 1].provider == FirstValidOf(entries).value;
      } else {
        assert forall j :: 1 <= j < |entries| ==> entries[j] == entries[1..][j - 1];
      }
    }
  }

  /** The `k`-th submission is valid, and no other valid one is better: in score, then in test
      score, then in safety, then by a shorter content. */
  predicate BestValid(entries: seq<Entry>, k: nat) {
    && k < |entries| && entries[k].valid
    && forall j :: 0 <= j < |entries| && entries[j].valid ==>
         var a, b := entries[k], entries[j];
         && a.score >= b.score
         && (a.score == b.score ==> a.test >= b.test)
         && (a.score == b.score && a.test == b.test ==> a.safety >= b.safety)
         && (a.score == b.score && a.test == b.test && a.safety == b.safety ==> |a.content| <= |b.content|)
  }

  /** The primary submission is a best valid one; there is none exactly if no submission is valid. */
  ghost predicate PrimaryIsBest(r: Raid) {
    match r.primary
    case None => forall k :: 0 <= k < |r.ranked| ==> !r.ranked[k].valid
    case Some(p) => exists k: nat :: BestValid(r.ranked, k) && r.ranked[k].provider == p
  }

  lemma FirstIsBest(entries: seq<Entry>, k: nat)
    requires k < |Rank(entries)| == |entries| && Rank(entries)[k].valid && forall j :: 0 <= j < k ==> !Rank(entries)[j].valid
    ensures BestValid(Rank(entries), k)
  {
    var ranked := Rank(entries);
    hide Rank;
    forall j | 0 <= j < |ranked| && ranked[j].valid && j != k
      ensures k < j
    {
    }
    forall j | k < j < |ranked|
      ensures var a, b := ranked[k], ranked[j];
              && a.score >= b.score
              && (a.score == b.score ==> a.test >= b.test)
              && (a.score == b.score && a.test == b.test ==> a.safety >= b.safety)
              && (a.score == b.score && a.test == b.test && a.safety == b.safety ==> |a.content| <= |b.content|)
    {
      RankDescends(entries, k, j);
    }
  }

  /** The final record has the submissions it had, ranked, and a best valid one as primary. */
  lemma FinalRecordIs(r: Raid)
    ensures var f := FinalizeRecord(r);
            && f == r.(ranked := f.ranked, primary := f.primary, status := Final)
            && Unranked(f.ranked) == Unranked(r.ranked) && PrimaryIsBest(f)
  {
    RankIsSortedPermutation(r.ranked);
    FirstValidIs(Rank(r.ranked));
    hide Rank, FirstValidOf, Ordered, Unranked;
    var ranked := FinalizeRecord(r).ranked;
    if FirstValidOf(ranked).Some? {
      var k: nat :| k < |ranked| && ranked[k].valid && ranked[k].provider == FirstValidOf(ranked).value
                    && forall j :: 0 <= j < k ==> !ranked[j].valid;
      FirstIsBest(r.ranked, k);
    }
  }

  // ----- the assignment machine

  predicate Unsettled(r: Raid, p: ProviderId) {
    p in r.assignments && !Settled(r.assignments[p].status)
  }

  function SetStatus(r: Raid, p: ProviderId, s: AssignmentStatus): Raid
    requires p in r.assignments
  {
    r.(assignments := r.assignments[p := r.assignments[p].(status := s)])
  }

  /** `applyTimeoutToRaid`, `applyFailureToRaid` and `applyDisqualificationToRaid`: an unknown
      or settled assignment is left alone. */
  function Settle(r: Raid, p: ProviderId, s: AssignmentStatus): Raid
    requires Settled(s)
  {
    if Unsettled(r, p) then SetStatus(r, p, s) else r
  }

  /** `applyHeartbeatToRaid`; a heartbeat of another run is ignored. */
  function ApplyHeartbeat(r: Raid, p: ProviderId, runId: Option<string>): Raid {
    if !Unsettled(r, p) then r
    else if runId.Some? && r.assignments[p].runId.Some? && runId != r.assignments[p].runId then r
    else SetStatus(r, p, Working)
  }

  /** `applySubmissionToRaid`; the caller has looked the assignment up. */
  function ApplySubmission(r: Raid, e: Entry): Raid
    requires e.provider in r.assignments
  {
    var s := SetStatus(r, e.provider, if e.valid then Submitted else Invalid);
    var t := s.(ranked := Rank(r.ranked + [e.(rank := |r.ranked| + 1)]));
    if r.firstValid.None? && e.valid then t.(firstValid := Some(e.provider), status := FirstValid) else t
  }

  function NextReserve(reserves: seq<ProviderId>, selected: seq<ProviderId>): (p: Option<ProviderId>)
    ensures p.Some? ==> p.value in reserves && p.value !in selected
    ensures p.None? ==> forall x :: x in reserves ==> x in selected
  {
    if reserves == [] then None
    else if reserves[0] !in selected then Some(reserves[0])
    else NextReserve(reserves[1..], selected)
  }

  /** It is the first one of the reserves that is not selected yet. */
  lemma {:induction false} NextReserveIs(reserves: seq<ProviderId>, selected: seq<ProviderId>)
    ensures match NextReserve(reserves, selected)
            case None => forall k :: 0 <= k < |reserves| ==> reserves[k] in selected
            case Some(p) => p !in selected && exists k :: 0 <= k < |reserves| && reserves[k] == p
                                                          && forall j :: 0 <= j < k ==> reserves[j] in selected
  {
    if reserves != [] && reserves[0] in selected {
      NextReserveIs(reserves[1..], selected);
      if NextReserve(reserves, selected).Some? {
        var k: nat :| k < |reserves| - 1 && reserves[1..][k] == NextReserve(reserves, selected).value
                      && forall j :: 0 <= j < k ==> reserves[1..][j] in selected;
        assert forall j :: 1 <= j < k + 1 ==> reserves[j] == reserves[1..][j - 1];
        assert reserves[k + 1] == NextReserve(reserves, selected).value;
      }
    }
  }

  /** The reserves that are not selected, each once, in order. */
  function Queue(reserves: seq<ProviderId>, selected: seq<ProviderId>): (q: seq<ProviderId>)
    ensures forall p :: p in q <==> p in reserves && p !in selected
  {
    if reserves == [] then []
    else if reserves[0] in selected then Queue(reserves[1..], selected)
    else [reserves[0]] + Queue(reserves[1..], selected + [reserves[0]])
  }

  /** `a` is in the sequence and `b` is not before it. */
  ghost predicate Earlier(ps: seq<ProviderId>, a: ProviderId, b: ProviderId) {
    exists k :: 0 <= k < |ps| && ps[k] == a && b !in ps[..k]
  }

  lemma EarlierLonger(ps: seq<ProviderId>, a: ProviderId, b: ProviderId)
    requires ps != [] && ps[0] != b && Earlier(ps[1..], a, b)
    ensures Earlier(ps, a, b)
  {
    var k: nat :| k < |ps| - 1 && ps[1..][k] == a && b !in ps[1..][..k];
    assert ps[..k + 1] == [ps[0]] + ps[1..][..k];
    assert ps[k + 1] == a;
  }

  /** Nobody is in the queue twice, and of two in it the one that is first among the reserves
      comes first. */
  lemma {:induction false} QueueInOrder(reserves: seq<ProviderId>, selected: seq<ProviderId>, i: nat, j: nat)
    requires i < j < |Queue(reserves, selected)|
    ensures var q := Queue(reserves, selected); q[i] != q[j] && Earlier(reserves, q[i], q[j])
  {
    hide Earlier;
    var q, rest := Queue(reserves, selected), reserves[1..];
    if reserves[0] in selected {
      QueueInOrder(rest, selected, i, j);
      assert q[j] in q;
      EarlierLonger(reserves, q[i], q[j]);
    } else {
      var later := Queue(rest, selected + [reserves[0]]);
      assert q[j] == later[j - 1] && q[j] in later;
      if i == 0 {
        EarliestOfAll(reserves, q[j]);
      } else {
        QueueInOrder(rest, selected + [reserves[0]], i - 1, j - 1);
        EarlierLonger(reserves, q[i], q[j]);
      }
    }
  }

  lemma EarliestOfAll(ps: seq<ProviderId>, b: ProviderId)
    requires ps != []
    ensures Earlier(ps, ps[0], b)
  {
    assert b !in ps[..0];
  }

  /** The next reserve is the first of the queue. */
  lemma {:induction false} NextOfQueue(reserves: seq<ProviderId>, selected: seq<ProviderId>)
    ensures var q := Queue(reserves, selected);
            match NextReserve(reserves, selected)
            case None => q == []
            case Some(p) => q != [] && p == q[0] && Queue(reserves, selected + [p]) == q[1..]
  {
    if reserves != [] {
      if reserves[0] in selected {
        NextOfQueue(reserves[1..], selected);
      } else {
        assert reserves[0] in selected + [reserves[0]];
      }
    }
  }

  /** `promoteReserveProvider` */
  function PromoteReserve(r: Raid): Raid {
    match NextReserve(r.reserves, r.selected)
    case None => r
    case Some(p) => r.(selected := r.selected + [p])
  }

  /** Whoever was selected since then are the first of the queue, in order. */
  predicate Joined(r: Raid, r': Raid) {
    && r'.reserves == r.reserves && r.selected <= r'.selected
    && r'.selected[|r.selected|..] <= Queue(r.reserves, r.selected)
  }

  lemma NobodyJoined(r: Raid)
    ensures Joined(r, r)
  {
  }

  lemma JoinedOn(r: Raid, r1: Raid, r2: Raid)
    requires Joined(r, r1) && Joined(r1, r2)
    ensures Joined(r, r2)
  {
    var n := |r1.selected| - |r.selected|;
    QueueRest(r.reserves, r.selected, n);
    var q := Queue(r.reserves, r.selected);
    assert r1.selected == r.selected + q[..n];
    assert r2.selected[|r.selected|..] == q[..n] + r2.selected[|r1.selected|..];
    assert q == q[..n] + q[n..];
  }

  /** After the first `n` have joined the rest of the queue is left. */
  lemma {:induction false} QueueRest(reserves: seq<ProviderId>, selected: seq<ProviderId>, n: nat)
    requires n <= |Queue(reserves, selected)|
    ensures Queue(reserves, selected + Queue(reserves, selected)[..n]) == Queue(reserves, selected)[n..]
    decreases n
  {
    var q := Queue(reserves, selected);
    if n == 0 {
      assert selected + q[..0] == selected;
    } else {
      NextOfQueue(reserves, selected);
      var rest := selected + [q[0]];
      QueueRest(reserves, rest, n - 1);
      assert rest + q[1..][..n - 1] == selected + q[..n];
    }
  }

  /** `shouldFinalizeRaid` */
  predicate ShouldFinalize(r: Raid) {
    forall i :: 0 <= i < |r.selected| ==> r.selected[i] in r.assignments && Settled(r.assignments[r.selected[i]].status)
  }

  /** `finalizeRaidRecord` */
  function FinalizeRecord(r: Raid): Raid {
    var ranked := Rank(r.ranked);
    r.(ranked := ranked, primary := FirstValidOf(ranked), status := Final)
  }

  /** The deadline's pass over the selected providers: every live one is disqualified. */
  function DisqualifySelected(r: Raid, n: nat): Raid
    requires n <= |r.selected|
  {
    if n == 0 then r else Settle(DisqualifySelected(r, n - 1), r.selected[n - 1], Disqualified)
  }

  lemma {:induction false} DisqualifySelectedSettles(r: Raid, n: nat)
    requires n <= |r.selected|
    ensures var d := DisqualifySelected(r, n);
            && d == r.(assignments := d.assignments) && d.assignments.Keys == r.assignments.Keys
            && forall p :: p in r.assignments ==>
                 d.assignments[p] ==
                   if p in r.selected[..n] && Unsettled(r, p) then r.assignments[p].(status := Disqualified)
                   else r.assignments[p]
  {
    if n > 0 {
      DisqualifySelectedSettles(r, n - 1);
      assert r.selected[..n] == r.selected[..n - 1] + [r.selected[n - 1]];
    }
  }
}
