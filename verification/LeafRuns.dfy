/** Runs of one leaf raid while it is live: the callbacks of its providers, in any order
    (apps/orchestrator/src/raid-state.ts, raid-provider-dispatch.ts). */
module LeafRuns {
  import opened Options
  import opened Sequences
  import opened RaidState
  import opened Steps
  import Planning
  import Reservations

  datatype Callback =
    | Lapse(provider: ProviderId, status: AssignmentStatus)
    | Entered(entry: Entry)
    | Invited(provider: ProviderId)
    | Beat(provider: ProviderId, run: Option<string>)

  function Caller(c: Callback): ProviderId {
    if c.Entered? then c.entry.provider else c.provider
  }

  /** A timeout or failure that does something. */
  predicate Effective(r: Raid, c: Callback) {
    c.Lapse? && Unsettled(r, c.provider)
  }

  function Next(r: Raid, c: Callback): Raid {
    match c
    case Lapse(p, s) => if Unsettled(r, p) && (s == TimedOut || s == Failed) then PromoteReserve(SetStatus(r, p, s)) else r
    case Entered(e) => if e.provider in r.assignments then ApplySubmission(r, e) else r
    case Invited(p) => if Unsettled(r, p) then Invite(r, p) else r
    case Beat(p, run) => ApplyHeartbeat(r, p, run)
  }

  /** Callbacks come from dispatched providers, and a lapse is a timeout or a failure. */
  predicate Proper(r: Raid, c: Callback) {
    Caller(c) in r.selected && (c.Lapse? ==> c.status == TimedOut || c.status == Failed)
  }

  predicate ProperRun(r: Raid, cs: seq<Callback>)
    decreases |cs|
  {
    cs == [] || (Proper(r, cs[0]) && ProperRun(Next(r, cs[0]), cs[1..]))
  }

  function After(r: Raid, cs: seq<Callback>): Raid
    decreases |cs|
  {
    if cs == [] then r else After(Next(r, cs[0]), cs[1..])
  }

  function EffectiveCount(r: Raid, cs: seq<Callback>): nat
    decreases |cs|
  {
    if cs == [] then 0 else (if Effective(r, cs[0]) then 1 else 0) + EffectiveCount(Next(r, cs[0]), cs[1..])
  }

  function Everyone(r: Raid): set<ProviderId> {
    (set p | p in r.selected) + (set p | p in r.reserves)
  }

  function SettledOf(r: Raid, among: set<ProviderId>): set<ProviderId> {
    set p | p in among && p in r.assignments && Settled(r.assignments[p].status)
  }

  /** Selected once each, reserves only from the reserves, everybody has an assignment. */
  predicate LeafOk(r: Raid, everyone: set<ProviderId>) {
    && NoDuplicates(r.selected)
    && Everyone(r) == everyone
    && forall p :: p in everyone ==> p in r.assignments
  }

  /** What one callback keeps. */
  lemma NextKeeps(r: Raid, c: Callback, everyone: set<ProviderId>)
    requires LeafOk(r, everyone) && Proper(r, c)
    ensures LeafOk(Next(r, c), everyone) && r.selected <= Next(r, c).selected && Next(r, c).reserves == r.reserves
    ensures SettledOf(r, everyone) <= SettledOf(Next(r, c), everyone)
    ensures Effective(r, c) ==> c.provider in SettledOf(Next(r, c), everyone) && c.provider !in SettledOf(r, everyone)
    ensures Joined(r, Next(r, c))
  {
    hide Rank, Better, Queue;
    NobodyJoined(r);
    NextOfQueue(r.reserves, r.selected);
    var r' := Next(r, c);
    if c.Lapse? && Effective(r, c) {
      match NextReserve(r.reserves, r.selected)
      case None =>
      case Some(p) =>
        assert r'.selected == r.selected + [p];
        assert Queue(r.reserves, r.selected)[..1] == [p];
        assert Everyone(r') == Everyone(r);
    } else {
      assert r'.selected == r.selected && r'.reserves == r.reserves && r'.assignments.Keys == r.assignments.Keys;
    }
  }

  lemma BiggerSet(a: set<ProviderId>, b: set<ProviderId>, p: ProviderId)
    requires a <= b && p in b && p !in a
    ensures |a| + 1 <= |b|
  {
    assert a + {p} <= b;
    SubsetSize(a + {p}, b);
  }

  /** Over a run: settled assignments stay settled, nobody is selected twice, only reserves join,
      the first ones in their order, and each effective timeout or failure settles one more
      provider. */
  lemma {:induction false} RunKeeps(r: Raid, cs: seq<Callback>, everyone: set<ProviderId>)
    requires LeafOk(r, everyone) && ProperRun(r, cs)
    ensures LeafOk(After(r, cs), everyone) && r.selected <= After(r, cs).selected
    ensures SettledOf(r, everyone) <= SettledOf(After(r, cs), everyone)
    ensures EffectiveCount(r, cs) + |SettledOf(r, everyone)| <= |SettledOf(After(r, cs), everyone)|
    ensures Joined(r, After(r, cs))
    decreases |cs|
  {
    hide Next, LeafOk, Proper, SettledOf, Joined;
    NobodyJoined(r);
    if cs != [] {
      NextKeeps(r, cs[0], everyone);
      RunKeeps(Next(r, cs[0]), cs[1..], everyone);
      JoinedOn(r, Next(r, cs[0]), After(r, cs));
      var a, b := SettledOf(r, everyone), SettledOf(Next(r, cs[0]), everyone);
      if Effective(r, cs[0]) {
        BiggerSet(a, b, cs[0].provider);
      } else {
        SubsetSize(a, b);
      }
    }
  }

  lemma EveryoneBounded(r: Raid)
    ensures |Everyone(r)| <= |r.selected| + |r.reserves|
  {
    ElementsBounded(r.selected);
    ElementsBounded(r.reserves);
  }

  lemma {:induction false} ElementsBounded(ps: seq<ProviderId>)
    ensures |set p | p in ps| <= |ps|
  {
    if ps != [] {
      var n := |ps| - 1;
      ElementsBounded(ps[..n]);
      assert (set p | p in ps) == (set p | p in ps[..n]) + {ps[n]};
    }
  }

  /** Any run of a leaf raid has at most as many effective timeouts and failures as providers
      selected or in reserve; after that many, or whenever none could be effective any more,
      the raid is ready to be finalized. */
  lemma LeafRunBounded(r: Raid, cs: seq<Callback>)
    requires LeafOk(r, Everyone(r)) && ProperRun(r, cs)
    ensures EffectiveCount(r, cs) <= |r.selected| + |r.reserves|
    ensures EffectiveCount(r, cs) == |r.selected| + |r.reserves| ==> ShouldFinalize(After(r, cs))
    ensures var r' := After(r, cs);
            ShouldFinalize(r') <==> forall p :: p in r'.selected ==> !Effective(r', Lapse(p, TimedOut))
    ensures forall p :: p in r.assignments && p in Everyone(r) && Settled(r.assignments[p].status) ==>
              var r' := After(r, cs); p in r'.assignments && Settled(r'.assignments[p].status)
    ensures NoDuplicates(After(r, cs).selected) && r.selected <= After(r, cs).selected
            && forall p :: p in After(r, cs).selected ==> p in Everyone(r)
  {
    hide Next, Proper, ProperRun, After, EffectiveCount;
    var everyone := Everyone(r);
    RunKeeps(r, cs, everyone);
    EveryoneBounded(r);
    var r' := After(r, cs);
    SubsetSize(SettledOf(r', everyone), everyone);
    assert forall p :: p in r'.selected ==> p in everyone by {
      assert Everyone(r') == everyone;
    }
    if forall p :: p in r'.selected ==> !Effective(r', Lapse(p, TimedOut)) {
      forall i | 0 <= i < |r'.selected|
        ensures r'.selected[i] in r'.assignments && Settled(r'.assignments[r'.selected[i]].status)
      {
        assert !Effective(r', Lapse(r'.selected[i], TimedOut));
      }
    }
    forall p | p in everyone && p in r.assignments && Settled(r.assignments[p].status)
      ensures p in r'.assignments && Settled(r'.assignments[p].status)
    {
      assert p in SettledOf(r, everyone);
    }
  }

  /** A raid starts out like that when nobody is chosen twice. */
  lemma NewLeafOk(parent: Option<RaidId>, deadline: int, task: Planning.Task, workstream: Option<string>,
                  primaries: seq<ProviderId>, reserves: seq<ProviderId>)
    requires NoDuplicates(primaries)
    ensures var r := NewRaid(parent, deadline, task, workstream, primaries, reserves); LeafOk(r, Everyone(r))
  {
    var r := NewRaid(parent, deadline, task, workstream, primaries, reserves);
    forall p | p in Everyone(r)
      ensures p in r.assignments
    {
      assert p in primaries + reserves;
    }
  }

  /** Whatever its providers do, a raid needs nobody more than before. */
  lemma NextNeedsNobodyMore(r: Raid, c: Callback)
    requires !Terminal(r.status) && r.planning.None?
    ensures Reservations.Settles(r, Next(r, c))
  {
    hide Rank;
    forall p
      ensures Unsettled(Next(r, c), p) ==> Unsettled(r, p)
    {
    }
  }
}
