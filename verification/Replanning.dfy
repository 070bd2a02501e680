/** One adaptive revision (apps/orchestrator/src/raid-adaptive.ts): providers leave the pool, a
    repair or an expansion joins the tree, and the raids above it are reopened. */
module Replanning {
  import opened Options
  import opened Sequences
  import opened RaidState
  import opened RaidTree
  import opened Spawning
  import opened Adaptive
  import Planning

  // ----- taking providers from the pool

  predicate Known(env: Environment, p: ProviderId) {
    p != "" && p in env.registered
  }

  function KnownOf(env: Environment, ps: seq<ProviderId>): seq<ProviderId> {
    if ps == [] then []
    else KnownOf(env, ps[..|ps| - 1]) + if Known(env, ps[|ps| - 1]) then [ps[|ps| - 1]] else []
  }

  function UnknownOf(env: Environment, ps: seq<ProviderId>): seq<ProviderId> {
    if ps == [] then []
    else UnknownOf(env, ps[..|ps| - 1]) + if Known(env, ps[|ps| - 1]) then [] else [ps[|ps| - 1]]
  }

  lemma {:induction false} KnownAndUnknown(env: Environment, ps: seq<ProviderId>)
    ensures multiset(ps) == multiset(KnownOf(env, ps)) + multiset(UnknownOf(env, ps))
    ensures forall p :: p in UnknownOf(env, ps) ==> !Known(env, p)
  {
    if ps != [] {
      var front, last := ps[..|ps| - 1], ps[|ps| - 1];
      KnownAndUnknown(env, front);
      SplitLast(ps);
      if Known(env, last) {
        AppendNothing(UnknownOf(env, front));
        SplitLast(KnownOf(env, ps));
        assert KnownOf(env, ps)[..|KnownOf(env, front)|] == KnownOf(env, front);
      } else {
        AppendNothing(KnownOf(env, front));
        SplitLast(UnknownOf(env, ps));
        assert UnknownOf(env, ps)[..|UnknownOf(env, front)|] == UnknownOf(env, front);
      }
    }
  }

  lemma {:induction false} KnownOfKeeps(env: Environment, ps: seq<ProviderId>)
    ensures Kept(ps, KnownOf(env, ps), (p: ProviderId) => Known(env, p))
  {
    hide Kept;
    var keep := (p: ProviderId) => Known(env, p);
    if ps == [] {
      KeptNothing(keep);
    } else {
      var n := |ps| - 1;
      KnownOfKeeps(env, ps[..n]);
      KeptOneMore(ps[..n], KnownOf(env, ps[..n]), keep, ps[n]);
      assert ps == ps[..n] + [ps[n]];
      AppendNothing(KnownOf(env, ps[..n]));
    }
  }

  /** `takeAdaptiveProviders`: the first registered ones; `gone` is how much of the pool went. */
  method TakeProviders(available: seq<ProviderId>, env: Environment, count: nat)
    returns (taken: seq<ProviderId>, rest: seq<ProviderId>, gone: nat)
    ensures gone <= |available| && rest == available[gone..] && taken == KnownOf(env, available[..gone])
    ensures |taken| <= count && (|taken| < count ==> rest == [])
    ensures |taken| <= gone
    ensures Kept(available[..gone], taken, (p: ProviderId) => p != "" && p in env.registered)
  {
    taken, rest, gone := [], available, 0;
    while |taken| < count && rest != []
      invariant gone <= |available| && rest == available[gone..] && taken == KnownOf(env, available[..gone])
      invariant |taken| <= count && |taken| <= gone
    {
      var p := rest[0];
      assert available[..gone + 1][..gone] == available[..gone];
      rest, gone := rest[1..], gone + 1;
      if p == "" {
        continue;
      }
      if p in env.registered {
        taken := taken + [p];
      }
    }
    KnownOfKeeps(env, available[..gone]);
    SameKept(available[..gone], taken, (p: ProviderId) => Known(env, p), (p: ProviderId) => p != "" && p in env.registered);
  }

  // ----- the books of a plan

  /** Where the pool of a plan started, which raids its revisions made, and who was dropped. */
  datatype Books = Books(initial: seq<ProviderId>, made: seq<(nat, nat)>, dropped: seq<ProviderId>)

  predicate MadeOk(m: Raids, top: nat, made: seq<(nat, nat)>) {
    && (forall k :: 0 <= k < |made| ==>
          made[k].0 < made[k].1 <= top && (forall i :: made[k].0 <= i < made[k].1 ==> i in m) && NoReserves(m, made[k].0, made[k].1))
    && forall j, k :: 0 <= j < k < |made| ==> made[j].1 <= made[k].0
  }

  function Granted(m: Raids, made: seq<(nat, nat)>): seq<ProviderId> {
    if made == [] then []
    else
      var last := made[|made| - 1];
      Granted(m, made[..|made| - 1]) + if last.0 <= last.1 then SelectedOf(m, last.0, last.1) else []
  }

  lemma {:induction false} GrantedKept(m: Raids, m': Raids, top: nat, made: seq<(nat, nat)>)
    requires MadeOk(m, top, made)
    requires forall x :: x in m && x < top && m[x].reserves == [] ==> x in m' && m'[x].selected == m[x].selected
    ensures Granted(m', made) == Granted(m, made)
  {
    if made != [] {
      var last := made[|made| - 1];
      assert MadeOk(m, top, made[..|made| - 1]);
      GrantedKept(m, m', top, made[..|made| - 1]);
      SelectedOfKept(m, m', last.0, last.1);
    }
  }

  /** Every revision is counted once, listed once and took somebody. */
  predicate Counted(a: RaidState.Adaptive, books: Books) {
    && a.revisionCount == |a.history| == |a.spawned| == |books.made|
    && a.revisionCount + |a.available| <= a.plannedReserve == a.maxRevisions == |books.initial|
    && forall k :: 0 <= k < |a.spawned| ==> a.spawned[k] == a.history[k].spawned == books.made[k].0
  }

  /** No workstream is revised more than twice or expanded more than once. */
  ghost predicate HistoryOk(history: seq<Revision>) {
    forall p, w :: Revisions(history, p, w) <= MAX_REVISIONS_PER_WORKSTREAM && Expansions(history, p, w) <= 1
  }

  /** The pool the plan began with: still there, given to raids made since, or dropped. */
  predicate Conserved(m: Raids, available: seq<ProviderId>, books: Books) {
    multiset(books.initial) == multiset(available) + multiset(Granted(m, books.made)) + multiset(books.dropped)
  }

  ghost predicate PlanningOk(m: Raids, top: nat, a: RaidState.Adaptive, books: Books, env: Environment) {
    && Counted(a, books) && HistoryOk(a.history) && MadeOk(m, top, books.made) && Conserved(m, a.available, books)
    && forall p :: p in books.dropped ==> !Known(env, p)
  }

  /** A plan later on: its bounds stay, providers only leave the pool, revisions are only added. */
  predicate PlanLater(p: Option<RaidState.Adaptive>, p': Option<RaidState.Adaptive>) {
    && p'.Some? == p.Some?
    && (p.Some? ==>
          && p'.value.plannedReserve == p.value.plannedReserve && p'.value.maxRevisions == p.value.maxRevisions
          && p.value.revisionCount <= p'.value.revisionCount
          && p.value.history <= p'.value.history && p.value.spawned <= p'.value.spawned
          && Suffix(p.value.available, p'.value.available))
  }

  /** The books of a plan later on: where it started stays, the rest is only added to. */
  ghost predicate BooksExtend(books: map<RaidId, Books>, books': map<RaidId, Books>) {
    forall x :: x in books ==>
      x in books' && books'[x].initial == books[x].initial && books[x].made <= books'[x].made && books[x].dropped <= books'[x].dropped
  }

  lemma BooksExtendOn(a: map<RaidId, Books>, b: map<RaidId, Books>, c: map<RaidId, Books>)
    requires BooksExtend(a, b) && BooksExtend(b, c)
    ensures BooksExtend(a, c)
  {
  }

  lemma BooksExtendSelf(books: map<RaidId, Books>)
    ensures BooksExtend(books, books)
  {
  }

  lemma BooksAfterExtend(books: map<RaidId, Books>, id: RaidId, env: Environment, available: seq<ProviderId>, gone: nat, made: seq<(nat, nat)>)
    requires gone <= |available| && id in books
    ensures BooksExtend(books, books[id := BooksAfter(books[id], env, available, gone, made)])
  {
    hide UnknownOf;
  }

  /** A plan is right from the start (`spawnPreparedRaid`). */
  lemma PlanningStarts(m: Raids, top: nat, pool: seq<ProviderId>, env: Environment)
    ensures PlanningOk(m, top, RaidState.Adaptive(pool, |pool|, 0, |pool|, [], []), Books(pool, [], []), env)
  {
  }

  /** Providers of a duplicate-free pool are given out at most once, and not while still in it. */
  lemma GrantedOnce(m: Raids, top: nat, a: RaidState.Adaptive, books: Books, env: Environment, p: ProviderId)
    requires PlanningOk(m, top, a, books, env) && multiset(books.initial)[p] <= 1
    ensures multiset(Granted(m, books.made))[p] + multiset(a.available)[p] <= 1
  {
  }

  /** A registered provider that left the pool was given to a raid. */
  lemma GrantedAll(m: Raids, top: nat, a: RaidState.Adaptive, books: Books, env: Environment, p: ProviderId)
    requires PlanningOk(m, top, a, books, env)
    ensures p in books.initial && p !in a.available && Known(env, p) ==> p in Granted(m, books.made)
  {
    if p in books.initial {
      assert p in multiset(books.initial);
    }
  }

  // ----- reopening

  function Reopen(r: Raid): Raid {
    if Terminal(r.status) then r.(status := Dispatching) else r
  }

  /** `reopenRaidAncestry`: `p` and the raids above it are no longer terminal, nothing else changes. */
  method ReopenAncestry(m: Raids, ghost top: nat, p: RaidId) returns (m': Raids)
    requires WellFormed(m, top) && p in m
    ensures m'.Keys == m.Keys && forall x :: x in m ==> m'[x] == if Below(m, x, p) then Reopen(m[x]) else m[x]
    ensures forall x :: x in m ==> m'[x] == m[x].(status := if Below(m, x, p) && Terminal(m[x].status) then Dispatching else m[x].status)
  {
    hide NodeOk, Below;
    m' := m;
    var current := Some(p);
    BelowItself(m, p);
    AncestorsOf(m, top, p);
    while current.Some?
      invariant current.Some? ==> current.value in m && Below(m, current.value, p)
      invariant m'.Keys == m.Keys
      invariant forall x :: x in m ==>
                  m'[x] == if Below(m, x, p) && !(current.Some? && Below(m, x, current.value)) then Reopen(m[x]) else m[x]
      decreases if current.Some? then current.value + 1 else 0
    {
      var id := current.value;
      AncestorsOf(m, top, id);
      forall x | x in m && Below(m, x, id)
        ensures Below(m, x, p)
      {
        BelowTransitive(m, x, id, p);
      }
      m' := m'[id := Reopen(m'[id])];
      current := m[id].parent;
    }
  }

  /** Above `id`: itself and what is above its parent. */
  lemma AncestorsOf(m: Raids, top: nat, id: RaidId)
    requires WellFormed(m, top) && id in m
    ensures m[id].parent.Some? ==> m[id].parent.value in m && m[id].parent.value < id
    ensures forall x :: Below(m, x, id) <==> x == id || (m[id].parent.Some? && Below(m, x, m[id].parent.value))
    ensures m[id].parent.Some? ==> Below(m, m[id].parent.value, id) && !Below(m, id, m[id].parent.value)
  {
    assert NodeOk(m, top, id);
    if m[id].parent.Some? {
      var p := m[id].parent.value;
      assert Below(m, p, p);
      if Below(m, id, p) {
        BelowIsOlder(m, id, p);
      }
    }
  }

  // ----- the tasks of the added raids

  /** `buildAdaptiveRepairTask` */
  function RepairTask(task: Planning.Task): Planning.Task {
    Planning.Task(Planning.LeafBudget(task), 1)
  }

  /** A repair is paid what a single expert of the revised raid would be. */
  lemma RepairKeepsLeafBudget(task: Planning.Task)
    ensures RepairTask(task).numExperts == 1 && RepairTask(task).budgetUsd == Planning.LeafBudget(task) == Planning.LeafBudget(RepairTask(task))
  {
    hide Planning.RoundCents;
    Planning.ScopedKeepsLeafBudget(task, 1);
    Planning.LeafOfScoped(task);
  }

  /** `buildAdaptiveExpansionTask` */
  function ExpansionTask(task: Planning.Task, experts: nat): Planning.Task {
    Planning.Task(Planning.MaxReal(Planning.RoundCents(Planning.Share(task, experts)), 0.01), experts)
  }

  lemma CentsTimes(c: int, n: nat) returns (k: int)
    ensures (c as real / 100.0) * n as real == k as real / 100.0
    ensures k == c * n
  {
    k := c * n;
  }

  lemma RoundOfProduct(per: real, c: int, n: nat)
    requires per == c as real / 100.0
    ensures c >= 1 ==> Planning.RoundCents(per * n as real) == per * n as real
    ensures c <= 0 ==> Planning.RoundCents(per * n as real) <= 0.0
  {
    hide Planning.RoundCents;
    var k := CentsTimes(c, n);
    if c >= 1 {
      Planning.RoundOfCents(k);
    } else {
      NotPositive(c, n);
      var j := Planning.RoundNearest(per * n as real);
    }
  }

  lemma NotPositive(c: int, n: nat)
    requires c <= 0
    ensures c * n <= 0
  {
  }

  /** A leaf of an expansion is paid what a single expert of the revised raid would be. */
  lemma ExpansionKeepsLeafBudget(task: Planning.Task, n: nat)
    requires n >= 1
    ensures Planning.LeafBudget(ExpansionTask(task, n)) == Planning.LeafBudget(task)
  {
    Planning.ScopedKeepsLeafBudget(task, n);
    ExpansionIsScoped(task, n);
  }

  lemma ExpansionIsScoped(task: Planning.Task, n: nat)
    ensures ExpansionTask(task, n) == Planning.Scoped(task, n)
  {
    hide Planning.RoundCents, Planning.Share;
    RoundOfShare(task, n);
  }

  /** A share in whole cents needs no rounding when multiplied. */
  lemma RoundOfShare(task: Planning.Task, n: nat)
    ensures var x := Planning.Share(task, n);
            Planning.RoundCents(x) == x || (x <= 0.0 && Planning.RoundCents(x) <= 0.0)
  {
    hide Planning.RoundCents;
    var c := Planning.RoundNearest(task.budgetUsd / (if task.numExperts >= 1 then task.numExperts as real else 1.0));
    RoundOfProduct(Planning.PerExpert(task), c, n);
    if c <= 0 {
      Planning.ScaleNeg(Planning.PerExpert(task), n);
    }
  }

  // ----- one revision

  /** What is added for a target: a repair with the one provider, or an expansion with one leaf
      for each of them, indices and budgets as for any planned family. */
  ghost predicate Revises(m: Raids, env: Environment, t: Candidate, taken: seq<ProviderId>, node: Prepared)
    requires t.source in m
  {
    && node.plan.workstreamId == t.workstream && node.reserves == [] && Planning.Chosen([node]) == taken
    && if t.strategy.Expand? && |taken| > 1
       then && node.chosen == [] && node.task == ExpansionTask(m[t.source].task, |taken|)
            && t.family.Some?
            && exists nodes :: Planning.GraphOk(nodes, node.task, |taken|) && Planning.Assigns(node.children, nodes)
                               && Planning.Built(env.families, node.task, t.family.value, |taken|, nodes)
       else node.children == [] && node.chosen == taken && |taken| == 1 && node.task == RepairTask(m[t.source].task)
  }

  datatype Change = Change(target: Candidate, taken: seq<ProviderId>, gone: nat, node: Prepared)

  function Actual(ch: Change): Strategy {
    if ch.target.strategy.Expand? && |ch.taken| > 1 then Expand else Repair
  }

  function NextPlanning(a: RaidState.Adaptive, next: nat, ch: Change): RaidState.Adaptive
    requires ch.gone <= |a.available|
  {
    a.(available := a.available[ch.gone..], revisionCount := a.revisionCount + 1, spawned := a.spawned + [next],
       history := a.history + [Revision(ch.target.source, ch.target.parent, ch.target.workstream, Actual(ch), next)])
  }

  /** A raid that was there before, after the revision. */
  function AfterRevision(m: Raids, next: nat, id: RaidId, ch: Change, x: RaidId): Raid
    requires x in m && id in m && m[id].planning.Some? && ch.gone <= |m[id].planning.value.available|
  {
    var r := if Below(m, x, ch.target.parent) then Reopen(m[x]) else m[x];
    var s := if x == ch.target.parent then r.(children := r.children + [next]) else r;
    if x == id then s.(status := Dispatching, planning := Some(NextPlanning(m[id].planning.value, next, ch))) else s
  }

  predicate MayReplan(r: Raid, deadlineReached: bool) {
    && r.children != [] && r.planning.Some? && r.planning.value.available != []
    && r.planning.value.revisionCount < r.planning.value.maxRevisions
    && !Terminal(r.status) && !deadlineReached
  }

  /** No candidate below `id` precedes the target, and of those it does not precede either it is
      the first in the tree. */
  ghost predicate Targeted(m: Raids, id: RaidId, env: Environment, t: Candidate)
    requires id in m && m[id].planning.Some?
  {
    && t.source in m && IsCandidate(m, env, m[id].planning.value, id, 0, t)
    && (forall d :: IsCandidate(m, env, m[id].planning.value, id, 0, d) ==> !Precedes(d, t))
    && forall d :: IsCandidate(m, env, m[id].planning.value, id, 0, d) ==> d == t || Precedes(t, d) || Sooner(m, t, d)
  }

  /** The first registered providers of the pool were taken, as many as wanted if there are. */
  ghost predicate Took(available: seq<ProviderId>, env: Environment, ch: Change) {
    && ch.gone <= |available| && ch.taken == KnownOf(env, available[..ch.gone]) && ch.taken != []
    && |ch.taken| <= ch.gone && |ch.taken| <= ch.target.experts
    && (|ch.taken| < ch.target.experts ==> ch.gone == |available|)
  }

  ghost predicate Replanned(m: Raids, m': Raids, next: nat, next': nat, id: RaidId, env: Environment, ch: Change) {
    && id in m && MayReplan(m[id], false) && Targeted(m, id, env, ch.target)
    && Took(m[id].planning.value.available, env, ch)
    && Revises(m, env, ch.target, ch.taken, ch.node)
    && (forall x :: x in m ==> x in m' && m'[x] == AfterRevision(m, next, id, ch, x))
    && Added(m, m', next, next', ch)
  }

  /** The new raids: those of the node, below the target. */
  ghost predicate Added(m: Raids, m': Raids, next: nat, next': nat, ch: Change) {
    && ch.target.parent in m && next < next' && WellFormed(m', next')
    && (forall x :: x in m' <==> x in m || next <= x < next')
    && (forall i :: next <= i < next' ==>
          && Fresh(m'[i], m[ch.target.parent].deadline) && m'[i].parent.Some?
          && (m'[i].parent.value == ch.target.parent || next <= m'[i].parent.value < next'))
    && Mirrors(m', next, next', next, ch.node, m[ch.target.parent].deadline)
    && SelectedOf(m', next, next') == ch.taken && NoReserves(m', next, next')
  }

  /** The pool lost only providers that are no longer registered. */
  ghost predicate PoolDrained(m: Raids, m': Raids, id: RaidId, env: Environment, gone: nat) {
    && id in m && m[id].planning.Some?
    && var a := m[id].planning.value;
    && gone <= |a.available| && KnownOf(env, a.available[..gone]) == []
    && m' == m[id := m[id].(planning := Some(a.(available := a.available[gone..])))]
  }

  /** What is added for `taken`. */
  method BuildRevision(m: Raids, env: Environment, t: Candidate, taken: seq<ProviderId>) returns (node: Prepared)
    requires EnvironmentOk(env) && t.source in m && taken != []
    requires t.strategy.Expand? ==> t.family.Some? && t.family.value in env.families
    requires !t.strategy.Expand? ==> |taken| == 1
    ensures Revises(m, env, t, taken, node) && Reserveless(node.children)
    ensures node.plan.workstreamId == t.workstream && node.reserves == [] && Planning.Chosen([node]) == taken
    ensures node.plan.providerIndex == 1 && node.plan.totalExperts == |taken| == node.task.numExperts
    ensures Planning.LeafBudget(node.task) == Planning.LeafBudget(m[t.source].task)
  {
    hide Planning.Built, Planning.LeafBudget;
    RepairKeepsLeafBudget(m[t.source].task);
    ExpansionKeepsLeafBudget(m[t.source].task, |taken|);
    var role := Planning.Role(t.workstream);
    if t.strategy.Expand? && |taken| > 1 {
      var task := ExpansionTask(m[t.source].task, |taken|);
      var nodes := Planning.BuildFamilyNodes(env.families, task, t.family.value, |taken|);
      Planning.AssignLeavesExact(nodes, taken);
      var prepared := Planning.AssignLeaves(nodes, taken).value.0;
      AssignsReserveless(prepared, nodes);
      node := Planning.Prepared(task, Planning.Plan(1, |taken|, role, t.workstream), [], [], prepared);
      ChosenOne(node);
      assert taken[..|taken|] == taken == node.chosen + Planning.Chosen(prepared);
      assert Planning.GraphOk(nodes, node.task, |taken|) && Planning.Assigns(node.children, nodes)
             && Planning.Built(env.families, node.task, t.family.value, |taken|, nodes);
    } else {
      node := Planning.Prepared(RepairTask(m[t.source].task), Planning.Plan(1, 1, role, t.workstream), taken, [], []);
      ChosenOne(node);
      assert node.chosen + Planning.Chosen(node.children) == taken && |taken| == 1;
    }
  }

  lemma CandidateFacts(m: Raids, env: Environment, a: RaidState.Adaptive, i: RaidId, c: Candidate)
    requires EnvironmentOk(env) && a.available != [] && IsCandidate(m, env, a, i, 0, c)
    ensures c.parent in m && Below(m, i, c.parent) && Qualifies(m, a, c.parent, c.workstream)
    ensures c.source in m && 1 <= c.experts
    ensures c.strategy.Expand? ==> c.family.Some? && c.family.value in env.families
                                   && Expansions(a.history, c.parent, c.workstream) == 0
    ensures !c.strategy.Expand? ==> c.experts == 1
  {
    GroupCandidateIff(m, env, a, c.parent, c.workstream, Distance(m, i, c.parent));
  }

  // ----- the whole step

  /** A revision happens exactly then. */
  ghost predicate CanReplan(m: Raids, id: RaidId, env: Environment, deadlineReached: bool)
    requires id in m
  {
    && MayReplan(m[id], deadlineReached)
    && KnownOf(env, m[id].planning.value.available) != []
    && exists p, w :: p in m && Below(m, id, p) && Qualifies(m, m[id].planning.value, p, w)
  }

  lemma {:induction false} KnownGrows(env: Environment, ps: seq<ProviderId>, k: nat)
    requires k <= |ps| && KnownOf(env, ps[..k]) != []
    ensures KnownOf(env, ps) != []
    decreases |ps|
  {
    if k < |ps| {
      assert ps[..|ps| - 1][..k] == ps[..k];
      KnownGrows(env, ps[..|ps| - 1], k);
    } else {
      assert ps[..k] == ps;
    }
  }

  /** Why a revision that took nobody did not happen, and one that took somebody could. */
  lemma TakingDecides(m: Raids, id: RaidId, env: Environment, t: Candidate, taken: seq<ProviderId>, gone: nat)
    requires EnvironmentOk(env) && id in m && MayReplan(m[id], false) && IsCandidate(m, env, m[id].planning.value, id, 0, t)
    requires var available := m[id].planning.value.available;
             && gone <= |available| && taken == KnownOf(env, available[..gone])
             && (|taken| < t.experts ==> available[gone..] == [])
    ensures taken != [] <==> CanReplan(m, id, env, false)
  {
    hide Known, IsCandidate, Qualifies, Below;
    var available := m[id].planning.value.available;
    CandidateFacts(m, env, m[id].planning.value, id, t);
    if taken != [] {
      KnownGrows(env, available, gone);
    } else {
      assert available[..gone] == available;
    }
  }

  function Drained(m: Raids, id: RaidId, gone: nat): Raids
    requires id in m && m[id].planning.Some? && gone <= |m[id].planning.value.available|
  {
    var a := m[id].planning.value;
    m[id := m[id].(planning := Some(a.(available := a.available[gone..])))]
  }

  /** `revisionCount`, history, spawned raid and status of the planning raid. */
  function Recorded(m: Raids, m': Raids, next: nat, id: RaidId, ch: Change): Raids
    requires id in m && id in m' && m[id].planning.Some? && ch.gone <= |m[id].planning.value.available|
  {
    m'[id := m'[id].(status := Dispatching, planning := Some(NextPlanning(m[id].planning.value, next, ch)))]
  }

  lemma OldRaidsAfter(m: Raids, m2: Raids, m3: Raids, next: nat, next': nat, id: RaidId, ch: Change, x: RaidId)
    requires WellFormed(m, next) && id in m && m[id].planning.Some? && ch.gone <= |m[id].planning.value.available|
    requires x in m && id in m3 && m2.Keys == m.Keys && ch.target.parent in m
    requires m2[x] == var r := Drained(m, id, ch.gone)[x]; if Below(Drained(m, id, ch.gone), x, ch.target.parent) then Reopen(r) else r
    requires x in m3 && m3[x] == if x == ch.target.parent then m2[x].(children := m2[x].children + [next]) else m2[x]
    ensures Recorded(m, m3, next, id, ch)[x] == AfterRevision(m, next, id, ch, x)
  {
    hide Below, NodeOk, WellFormed, NextPlanning;
    BelowDepends(m, Drained(m, id, ch.gone), x, ch.target.parent);
    if x != id {
      assert Drained(m, id, ch.gone)[x] == m[x];
    }
  }

  lemma AddedRecorded(m: Raids, m2: Raids, m3: Raids, next: nat, next': nat, id: RaidId, ch: Change)
    requires WellFormed(m, next) && id in m && m[id].planning.Some? && ch.gone <= |m[id].planning.value.available|
    requires m2.Keys == m.Keys && ch.target.parent in m && m2[ch.target.parent].deadline == m[ch.target.parent].deadline
    requires Grown(m2, m3, next, next', ch.target.parent) && next < next'
    requires Mirrors(m3, next, next', next, ch.node, m[ch.target.parent].deadline)
    requires SelectedOf(m3, next, next') == ch.taken && NoReserves(m3, next, next')
    ensures Added(m, Recorded(m, m3, next, id, ch), next, next', ch)
  {
    hide NodeOk, WellFormed, Mirrors, SelectedOf, Below, NextPlanning, NewRaid, Fresh, Recorded;
    var m4 := Recorded(m, m3, next, id, ch);
    OlderThan(m, next, id);
    GrownFacts(m2, m3, next, next', ch.target.parent);
    RecordedTree(m, m3, next, id, ch);
    WellFormedSameTree(m3, m4, next');
    MirrorsKept(m3, m4, next, next', next, next', next, ch.node, m[ch.target.parent].deadline);
    SelectedOfKept(m3, m4, next, next');
  }

  lemma RecordedTree(m: Raids, m3: Raids, next: nat, id: RaidId, ch: Change)
    requires id in m && id in m3 && m[id].planning.Some? && ch.gone <= |m[id].planning.value.available|
    ensures var m4 := Recorded(m, m3, next, id, ch); SameTree(m3, m4) && forall x :: x in m3 && x != id ==> m4[x] == m3[x]
  {
    hide NextPlanning;
  }

  /** `maybeReplanHierarchicalRaid` */
  method MaybeReplan(m: Raids, next: nat, id: RaidId, env: Environment, deadlineReached: bool)
    returns (m': Raids, next': nat, done: bool, ch: Change)
    requires WellFormed(m, next) && id in m && EnvironmentOk(env)
    ensures done <==> CanReplan(m, id, env, deadlineReached)
    ensures done ==> Replanned(m, m', next, next', id, env, ch)
    ensures !done ==> next' == next && (m' == m || PoolDrained(m, m', id, env, ch.gone))
  {
    hide IsCandidate, Candidates, Qualifies, Below, WellFormed, NodeOk, Precedes, Sooner, Revises, Grown, Mirrors, SelectedOf,
         KnownOf, EnvironmentOk, AfterRevision, Reserveless;
    m', next', done := m, next, false;
    ch := Change(Candidate(Repair, 0, 0, "", 0, None, 0, 0, 0.0), [], 0,
                 Planning.Prepared(Planning.Task(0.0, 0), Planning.Plan(0, 0, Planning.Role(""), ""), [], [], []));
    if m[id].children == [] || m[id].planning.None? || m[id].planning.value.available == []
       || m[id].planning.value.revisionCount >= m[id].planning.value.maxRevisions
       || Terminal(m[id].status) || deadlineReached {
      return;
    }
    var a := m[id].planning.value;
    var cs := Candidates(m, next, env, a, id, 0);
    TargetIffSomeQualifies(m, next, env, a, id);
    if cs == [] {
      return;
    }
    var t := Pick(cs);
    CandidateFacts(m, env, a, id, t);
    forall d | IsCandidate(m, env, a, id, 0, d)
      ensures d == t || Precedes(t, d) || Sooner(m, t, d)
    {
      TargetIsSoonest(m, next, env, a, id, d);
    }
    var taken, rest, gone := TakeProviders(a.available, env, t.experts);
    TakingDecides(m, id, env, t, taken, gone);
    ch := ch.(gone := gone);
    if taken == [] {
      m' := m[id := m[id].(planning := Some(a.(available := rest)))];
      return;
    }
    done := true;
    m', next', ch := Revise(m, next, id, env, t, taken, rest, gone);
  }

  /** `spawnAdaptiveExpansionRaid` or `spawnAdaptiveRepairRaid`, and the entry in the history. */
  method Revise(m: Raids, next: nat, id: RaidId, env: Environment, t: Candidate, taken: seq<ProviderId>,
                rest: seq<ProviderId>, gone: nat)
    returns (m': Raids, next': nat, ch: Change)
    requires WellFormed(m, next) && id in m && EnvironmentOk(env) && MayReplan(m[id], false) && Targeted(m, id, env, t)
    requires var available := m[id].planning.value.available;
             && gone <= |available| && taken == KnownOf(env, available[..gone]) && taken != [] && rest == available[gone..]
             && |taken| <= gone && |taken| <= t.experts && (|taken| < t.experts ==> rest == [])
    ensures Replanned(m, m', next, next', id, env, ch)
  {
    hide *;
    RevisionStarts(m, next, id, env, t, taken, gone);
    var node := BuildRevision(m, env, t, taken);
    ch := Change(t, taken, gone, node);
    RevisionTook(m, id, env, ch);
    var m1 := Drained(m, id, gone);
    var m3;
    ghost var m2;
    m3, next', m2 := Attach(m1, next, t.parent, node);
    AddedRecorded(m, m2, m3, next, next', id, ch);
    m' := Recorded(m, m3, next, id, ch);
    RevisionDone(m, m1, m2, m3, next, next', id, env, ch);
  }

  lemma RevisionStarts(m: Raids, next: nat, id: RaidId, env: Environment, t: Candidate, taken: seq<ProviderId>, gone: nat)
    requires WellFormed(m, next) && id in m && EnvironmentOk(env) && MayReplan(m[id], false) && Targeted(m, id, env, t)
    requires var available := m[id].planning.value.available; gone <= |available| && |taken| <= t.experts
    ensures m[id].planning.Some? && t.parent in m && t.source in m
    ensures t.strategy.Expand? ==> t.family.Some? && t.family.value in env.families
    ensures !t.strategy.Expand? ==> |taken| <= 1
    ensures var d := Drained(m, id, gone);
            d.Keys == m.Keys && WellFormed(d, next) && d[t.parent].deadline == m[t.parent].deadline
  {
    hide IsCandidate, Precedes, EnvironmentOk, NodeOk, WellFormed, Below, Expansions, Qualifies;
    CandidateFacts(m, env, m[id].planning.value, id, t);
    WellFormedSameTree(m, Drained(m, id, gone), next);
  }

  lemma RevisionTook(m: Raids, id: RaidId, env: Environment, ch: Change)
    requires id in m && MayReplan(m[id], false)
    requires var available := m[id].planning.value.available;
             && ch.gone <= |available| && ch.taken == KnownOf(env, available[..ch.gone]) && ch.taken != []
             && |ch.taken| <= ch.gone && |ch.taken| <= ch.target.experts
             && (|ch.taken| < ch.target.experts ==> available[ch.gone..] == [])
    ensures Took(m[id].planning.value.available, env, ch)
  {
    hide KnownOf;
  }

  lemma RevisionDone(m: Raids, m1: Raids, m2: Raids, m3: Raids, next: nat, next': nat, id: RaidId, env: Environment, ch: Change)
    requires WellFormed(m, next) && id in m && MayReplan(m[id], false) && Targeted(m, id, env, ch.target)
    requires Took(m[id].planning.value.available, env, ch) && Revises(m, env, ch.target, ch.taken, ch.node)
    requires m1 == Drained(m, id, ch.gone) && m2.Keys == m1.Keys && ch.target.parent in m
    requires forall x :: x in m1 ==> m2[x] == if Below(m1, x, ch.target.parent) then Reopen(m1[x]) else m1[x]
    requires forall x :: x in m1 ==>
               x in m3 && m3[x] == if x == ch.target.parent then m2[x].(children := m2[x].children + [next]) else m2[x]
    requires Added(m, Recorded(m, m3, next, id, ch), next, next', ch)
    ensures Replanned(m, Recorded(m, m3, next, id, ch), next, next', id, env, ch)
  {
    hide IsCandidate, Below, WellFormed, NodeOk, Precedes, Revises, Mirrors, SelectedOf,
         KnownOf, AfterRevision, Reopen, Added, Targeted, Recorded;
    var m' := Recorded(m, m3, next, id, ch);
    forall x | x in m
      ensures x in m' && m'[x] == AfterRevision(m, next, id, ch, x)
    {
      AddedKeeps(m, m', next, next', ch);
      OldRaidsAfter(m, m2, m3, next, next', id, ch, x);
    }
  }

  /** The last entry of the history tells what was done: which raid was revised, below which parent
      and in which workstream; the raid that was added, which is an inner raid exactly if it was an
      expansion. */
  lemma HistoryTells(m: Raids, m': Raids, next: nat, next': nat, id: RaidId, env: Environment, ch: Change)
    requires Replanned(m, m', next, next', id, env, ch)
    ensures next in m' && id in m' && m'[id].planning.Some? && m[id].planning.Some?
    ensures var before, after := m[id].planning.value.history, m'[id].planning.value.history;
            && |after| == |before| + 1 && after[..|before|] == before
            && var last := after[|before|];
            && last.target == ch.target.source && last.parent == ch.target.parent && m'[next].parent == Some(last.parent)
            && last.workstream == ch.target.workstream && m'[next].workstream == Some(last.workstream) && last.spawned == next
            && (last.strategy.Expand? <==> m'[next].children != [])
    ensures m'[id].planning.value.revisionCount == m[id].planning.value.revisionCount + 1 && m'[id].status == Dispatching
  {
    hide IsCandidate, Precedes, Sooner, KnownOf, Below, Revises, Added;
    assert m'[id] == AfterRevision(m, next, id, ch, id);
    AddedTop(m, m', next, next', ch);
    NodeInner(m, env, ch.target, ch.taken, ch.node);
  }

  lemma AddedTop(m: Raids, m': Raids, next: nat, next': nat, ch: Change)
    requires Added(m, m', next, next', ch)
    ensures next in m' && m'[next].parent == Some(ch.target.parent) && m'[next].workstream == Some(ch.node.plan.workstreamId)
    ensures |m'[next].children| == |ch.node.children|
  {
    hide SelectedOf, NoReserves, Fresh;
    assert NodeOk(m', next', next);
  }

  lemma NodeInner(m: Raids, env: Environment, t: Candidate, taken: seq<ProviderId>, node: Prepared)
    requires t.source in m && Revises(m, env, t, taken, node)
    ensures node.plan.workstreamId == t.workstream && (node.children != [] <==> t.strategy.Expand? && |taken| > 1)
  {
    hide Planning.Built, Planning.Chosen, ExpansionTask, RepairTask, Planning.Leaves, Planning.Tiled, Planning.LeafBudgets;
  }

  lemma AddedKeeps(m: Raids, m': Raids, next: nat, next': nat, ch: Change)
    requires Added(m, m', next, next', ch)
    ensures forall x :: x in m ==> x in m'
  {
  }

  /** Reopening above `p`, then making the raids of the node below it. */
  method Attach(m: Raids, next: nat, p: RaidId, node: Prepared) returns (m': Raids, next': nat, ghost reopened: Raids)
    requires WellFormed(m, next) && p in m && node.reserves == [] && Reserveless(node.children)
    ensures reopened.Keys == m.Keys && forall x :: x in m ==> reopened[x] == if Below(m, x, p) then Reopen(m[x]) else m[x]
    ensures reopened[p].deadline == m[p].deadline
    ensures Grown(reopened, m', next, next', p) && next < next' && Mirrors(m', next, next', next, node, m[p].deadline)
    ensures SelectedOf(m', next, next') == Planning.Chosen([node]) && NoReserves(m', next, next')
    ensures forall x :: x in m ==> x in m' && m'[x] == if x == p then reopened[x].(children := reopened[x].children + [next]) else reopened[x]
  {
    hide Below, WellFormed, NodeOk, Grown, Mirrors, SelectedOf, Planning.Chosen, NoReserves, Reserveless, Fresh;
    var m2 := ReopenAncestry(m, next, p);
    WellFormedSameTree(m, m2, next);
    reopened := m2;
    m', next' := InstantiateOne(m2, next, p, node);
    GrownFacts(m2, m', next, next', p);
  }

  // ----- a revision keeps the books

  ghost function BooksAfter(books: Books, env: Environment, available: seq<ProviderId>, gone: nat, made: seq<(nat, nat)>): Books
    requires gone <= |available|
  {
    books.(made := books.made + made, dropped := books.dropped + UnknownOf(env, available[..gone]))
  }

  lemma HistoryBounded(m: Raids, id: RaidId, env: Environment, a: RaidState.Adaptive, ch: Change, r: Revision)
    requires EnvironmentOk(env) && a.available != [] && IsCandidate(m, env, a, id, 0, ch.target) && HistoryOk(a.history)
    requires r.parent == ch.target.parent && r.workstream == ch.target.workstream && r.strategy == Actual(ch)
    ensures HistoryOk(a.history + [r])
  {
    hide IsCandidate, Revisions, Expansions, Members, Lacking, EnvironmentOk;
    CandidateFacts(m, env, a, id, ch.target);
    forall p, w
      ensures Revisions(a.history + [r], p, w) <= MAX_REVISIONS_PER_WORKSTREAM && Expansions(a.history + [r], p, w) <= 1
    {
      RevisionsAppend(a.history, r, p, w);
    }
  }

  lemma MadeGrows(m: Raids, m': Raids, next: nat, next': nat, ch: Change, made: seq<(nat, nat)>)
    requires Added(m, m', next, next', ch) && MadeOk(m, next, made)
    requires forall x :: x in m ==> m'[x].selected == m[x].selected && m'[x].reserves == m[x].reserves
    ensures MadeOk(m', next', made + [(next, next')])
    ensures Granted(m', made + [(next, next')]) == Granted(m, made) + ch.taken
  {
    hide Mirrors, WellFormed, SelectedOf, Fresh;
    GrantedKept(m, m', next, made);
    assert (made + [(next, next')])[..|made|] == made;
  }

  lemma CountedAfter(a: RaidState.Adaptive, books: Books, env: Environment, ch: Change, next: nat, next': nat)
    requires Counted(a, books) && Took(a.available, env, ch)
    ensures Counted(NextPlanning(a, next, ch), BooksAfter(books, env, a.available, ch.gone, [(next, next')]))
  {
    hide KnownOf, UnknownOf;
  }

  lemma DroppedAfter(books: Books, env: Environment, available: seq<ProviderId>, gone: nat, made: seq<(nat, nat)>)
    requires gone <= |available| && forall p :: p in books.dropped ==> !Known(env, p)
    ensures forall p :: p in BooksAfter(books, env, available, gone, made).dropped ==> !Known(env, p)
  {
    hide Known, UnknownOf;
    KnownAndUnknown(env, available[..gone]);
  }

  lemma ConservedAfter(m: Raids, m': Raids, books: Books, env: Environment, available: seq<ProviderId>, gone: nat,
                       made: seq<(nat, nat)>)
    requires Conserved(m, available, books) && gone <= |available|
    requires Granted(m', books.made + made) == Granted(m, books.made) + KnownOf(env, available[..gone])
    ensures Conserved(m', available[gone..], BooksAfter(books, env, available, gone, made))
  {
    hide KnownOf, UnknownOf, Granted;
    KnownAndUnknown(env, available[..gone]);
    assert available == available[..gone] + available[gone..];
  }

  lemma RevisionFacts(m: Raids, m': Raids, next: nat, next': nat, id: RaidId, env: Environment, ch: Change)
    requires Replanned(m, m', next, next', id, env, ch)
    ensures id in m && MayReplan(m[id], false) && Took(m[id].planning.value.available, env, ch)
    ensures IsCandidate(m, env, m[id].planning.value, id, 0, ch.target)
    ensures id in m' && m'[id].planning == Some(NextPlanning(m[id].planning.value, next, ch))
    ensures forall x :: x in m ==> x in m' && m'[x].selected == m[x].selected && m'[x].reserves == m[x].reserves
    ensures Added(m, m', next, next', ch)
  {
    hide IsCandidate, Took, Revises, Added, MayReplan, NextPlanning, Precedes, Below;
  }

  /** Each revision is entered in the books, and no provider is lost. */
  lemma RevisionKeepsBooks(m: Raids, m': Raids, next: nat, next': nat, id: RaidId, env: Environment, ch: Change, books: Books)
    requires EnvironmentOk(env) && id in m && m[id].planning.Some? && Replanned(m, m', next, next', id, env, ch)
    requires PlanningOk(m, next, m[id].planning.value, books, env)
    ensures id in m' && m'[id].planning.Some?
    ensures PlanningOk(m', next', m'[id].planning.value,
                       BooksAfter(books, env, m[id].planning.value.available, ch.gone, [(next, next')]), env)
  {
    hide IsCandidate, Added, MayReplan, Precedes, Below, Replanned, Counted, HistoryOk, Conserved, MadeOk, KnownOf, UnknownOf,
         EnvironmentOk, Granted;
    var a := m[id].planning.value;
    RevisionFacts(m, m', next, next', id, env, ch);
    MayReplanFacts(m[id]);
    HistoryBounded(m, id, env, a, ch, Revision(ch.target.source, ch.target.parent, ch.target.workstream, Actual(ch), next));
    CountedAfter(a, books, env, ch, next, next');
    MadeGrows(m, m', next, next', ch, books.made);
    ConservedAfter(m, m', books, env, a.available, ch.gone, [(next, next')]);
    DroppedAfter(books, env, a.available, ch.gone, [(next, next')]);
  }

  lemma MayReplanFacts(r: Raid)
    requires MayReplan(r, false)
    ensures r.planning.Some? && r.planning.value.available != []
  {
  }

  /** So is a drained pool. */
  lemma DrainKeepsBooks(m: Raids, m': Raids, next: nat, id: RaidId, env: Environment, gone: nat, books: Books)
    requires PoolDrained(m, m', id, env, gone) && PlanningOk(m, next, m[id].planning.value, books, env)
    ensures PlanningOk(m', next, m'[id].planning.value, BooksAfter(books, env, m[id].planning.value.available, gone, []), env)
  {
    hide HistoryOk, KnownOf, UnknownOf, Granted, Conserved;
    var a := m[id].planning.value;
    assert books.made + [] == books.made;
    GrantedKept(m, m', next, books.made);
    ConservedAfter(m, m', books, env, a.available, gone, []);
    DroppedAfter(books, env, a.available, gone, []);
  }
}
