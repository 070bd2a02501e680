/** Adaptive replanning (apps/orchestrator/src/raid-adaptive.ts): which workstream is revised,
    who is taken from the pool for it, and what is added to the tree. */
module Adaptive {
  import opened Options
  import opened RaidState
  import opened RaidTree
  import opened Spawning
  import Planning

  const MAX_REVISIONS_PER_WORKSTREAM := 2
  const WEAK_SCORE_THRESHOLD := 0.72
  const EXPANSION_MISSING_CAP := 3
  const EXPANSION_WEAK_CAP := 2
  const MIN_EXPANSION_TO_TRIGGER := 2

  /** What replanning reads besides the raids: the registered providers, the family tables,
      the child family of a workstream, and which workstreams of a raid come first. */
  datatype Environment = Environment(registered: set<ProviderId>, families: Planning.Families,
                                     childFamily: map<string, Planning.FamilyId>,
                                     priority: (RaidId, string) -> bool)

  predicate EnvironmentOk(env: Environment) {
    && Planning.FamiliesOk(env.families) && Planning.BiasesOk(env.families)
    && forall w :: w in env.childFamily ==> env.childFamily[w] in env.families
  }

  // ----- counting revisions

  function Revisions(history: seq<Revision>, parent: RaidId, workstream: string): nat {
    if history == [] then 0
    else
      var last := history[|history| - 1];
      Revisions(history[..|history| - 1], parent, workstream)
      + if last.parent == parent && last.workstream == workstream then 1 else 0
  }

  function Expansions(history: seq<Revision>, parent: RaidId, workstream: string): nat {
    if history == [] then 0
    else
      var last := history[|history| - 1];
      Expansions(history[..|history| - 1], parent, workstream)
      + if last.parent == parent && last.workstream == workstream && last.strategy.Expand? then 1 else 0
  }

  lemma RevisionsAppend(history: seq<Revision>, r: Revision, parent: RaidId, workstream: string)
    ensures Revisions(history + [r], parent, workstream) ==
            Revisions(history, parent, workstream) + if r.parent == parent && r.workstream == workstream then 1 else 0
    ensures Expansions(history + [r], parent, workstream) ==
            Expansions(history, parent, workstream)
            + if r.parent == parent && r.workstream == workstream && r.strategy.Expand? then 1 else 0
  {
    assert (history + [r])[..|history|] == history;
  }

  /** The places, of the first `n` in the history, where that workstream was revised. */
  function Places(history: seq<Revision>, n: nat, parent: RaidId, workstream: string, expansions: bool): set<nat>
    requires n <= |history|
  {
    set k: nat | k < n && history[k].parent == parent && history[k].workstream == workstream && (expansions ==> history[k].strategy.Expand?)
  }

  lemma OnePlace(history: seq<Revision>, n: nat, parent: RaidId, workstream: string, expansions: bool)
    requires n < |history|
    ensures var r := history[n];
            |Places(history, n + 1, parent, workstream, expansions)| ==
            |Places(history, n, parent, workstream, expansions)|
            + if r.parent == parent && r.workstream == workstream && (expansions ==> r.strategy.Expand?) then 1 else 0
  {
    var r := history[n];
    var before := Places(history, n, parent, workstream, expansions);
    assert n !in before;
    assert Places(history, n + 1, parent, workstream, expansions) ==
           before + if r.parent == parent && r.workstream == workstream && (expansions ==> r.strategy.Expand?) then {n} else {};
  }

  /** They count the entries of the history for that parent and workstream. */
  lemma {:induction false} RevisionsAre(history: seq<Revision>, n: nat, parent: RaidId, workstream: string)
    requires n <= |history|
    ensures Revisions(history[..n], parent, workstream) == |Places(history, n, parent, workstream, false)|
    ensures Expansions(history[..n], parent, workstream) == |Places(history, n, parent, workstream, true)|
  {
    if n == 0 {
      assert Places(history, 0, parent, workstream, false) == {} && Places(history, 0, parent, workstream, true) == {};
    } else {
      hide Places;
      RevisionsAre(history, n - 1, parent, workstream);
      assert history[..n][..n - 1] == history[..n - 1];
      OnePlace(history, n - 1, parent, workstream, false);
      OnePlace(history, n - 1, parent, workstream, true);
    }
  }

  // ----- candidates

  datatype Candidate = Candidate(strategy: Strategy, parent: RaidId, source: RaidId, workstream: string,
                                 experts: nat, family: Option<Planning.FamilyId>,
                                 priority: nat, depth: nat, bestScore: real)

  predicate HasValidOutput(r: Raid) {
    exists k :: 0 <= k < |r.ranked| && r.ranked[k].valid
  }

  /** `bestCurrentScore`, which is the score of the first in the ranking, or zero. */
  function BestScore(r: Raid): real {
    if r.ranked == [] then 0.0 else r.ranked[0].score
  }

  /** The children of one workstream, in order. */
  function Members(m: Raids, children: seq<RaidId>, workstream: string): (g: seq<RaidId>)
    ensures forall x :: x in g <==> x in children && x in m && m[x].workstream == Some(workstream)
  {
    if children == [] then []
    else
      var n := |children| - 1;
      Members(m, children[..n], workstream)
      + if children[n] in m && m[children[n]].workstream == Some(workstream) then [children[n]] else []
  }

  /** The workstreams of the children, in order of first occurrence. */
  function Streams(m: Raids, children: seq<RaidId>): (ws: seq<string>)
    ensures forall w :: w in ws <==> exists k :: 0 <= k < |children| && children[k] in m && m[children[k]].workstream == Some(w)
  {
    if children == [] then []
    else
      var n := |children| - 1;
      var before := Streams(m, children[..n]);
      assert forall k :: 0 <= k < n ==> children[..n][k] == children[k];
      if children[n] in m && m[children[n]].workstream.Some? && m[children[n]].workstream.value !in before
      then before + [m[children[n]].workstream.value]
      else before
  }

  function Valid(m: Raids, group: seq<RaidId>): (v: seq<RaidId>)
    ensures forall x :: x in v <==> x in group && x in m && HasValidOutput(m[x])
  {
    if group == [] then []
    else
      var n := |group| - 1;
      Valid(m, group[..n]) + if group[n] in m && HasValidOutput(m[group[n]]) then [group[n]] else []
  }

  /** The first of the best. */
  function Best(m: Raids, group: seq<RaidId>): (x: RaidId)
    requires group != [] && forall x :: x in group ==> x in m
    ensures x in group && forall y :: y in group ==> BestScore(m[x]) >= BestScore(m[y])
  {
    if |group| == 1 then group[0]
    else
      var front := group[..|group| - 1];
      assert forall y :: y in group <==> y in front || y == group[|group| - 1];
      var b := Best(m, front);
      if BestScore(m[group[|group| - 1]]) > BestScore(m[b]) then group[|group| - 1] else b
  }

  function Min(a: nat, b: nat): nat {
    if a <= b then a else b
  }

  /** No child of the group has a valid output, or all their scores are weak. */
  predicate Lacking(m: Raids, group: seq<RaidId>) {
    || (forall x :: x in group && x in m ==> !HasValidOutput(m[x]))
    || (forall x :: x in group && x in m ==> BestScore(m[x]) < WEAK_SCORE_THRESHOLD)
  }

  /** A workstream below `parent` may be revised. */
  predicate Qualifies(m: Raids, a: RaidState.Adaptive, parent: RaidId, workstream: string)
    requires parent in m
  {
    var group := Members(m, m[parent].children, workstream);
    && group != []
    && (forall x :: x in group ==> Terminal(m[x].status))
    && Revisions(a.history, parent, workstream) < MAX_REVISIONS_PER_WORKSTREAM
    && Lacking(m, group)
  }

  /** The candidate of one group, if it makes one. */
  function GroupCandidate(m: Raids, env: Environment, a: RaidState.Adaptive, parent: RaidId,
                          workstream: string, depth: nat): (c: Option<Candidate>)
    requires parent in m
  {
    var group := Members(m, m[parent].children, workstream);
    if group == [] || exists x :: x in group && !Terminal(m[x].status) then None
    else if Revisions(a.history, parent, workstream) >= MAX_REVISIONS_PER_WORKSTREAM then None
    else
      var valid := Valid(m, group);
      var source := Best(m, if valid != [] then valid else group);
      var experts := Min(|a.available|, if valid == [] then EXPANSION_MISSING_CAP else EXPANSION_WEAK_CAP);
      var canExpand := workstream in env.childFamily && experts >= MIN_EXPANSION_TO_TRIGGER
                       && Expansions(a.history, parent, workstream) == 0;
      var score := Planning.MaxReal(BestScore(m[Best(m, group)]), 0.0);
      if valid != [] && score >= WEAK_SCORE_THRESHOLD then None
      else
        Some(Candidate(if canExpand then Expand else Repair, parent, source, workstream,
                       if canExpand then experts else 1,
                       if canExpand then Some(env.childFamily[workstream]) else None,
                       if valid == [] then 0 else if env.priority(parent, workstream) then 1 else 2,
                       depth, if valid == [] then 0.0 else score))
  }

  lemma GroupCandidateIff(m: Raids, env: Environment, a: RaidState.Adaptive, parent: RaidId, workstream: string, depth: nat)
    requires parent in m
    ensures GroupCandidate(m, env, a, parent, workstream, depth).Some? <==> Qualifies(m, a, parent, workstream)
  {
    hide HasValidOutput, Revisions, Expansions;
    var group := Members(m, m[parent].children, workstream);
    if group != [] {
      var valid := Valid(m, group);
      assert valid == [] <==> forall x :: x in group ==> !HasValidOutput(m[x]) by {
        if valid != [] {
          assert valid[0] in valid;
        }
      }
      assert group[0] in group;
    }
  }

  function GroupCandidates(m: Raids, env: Environment, a: RaidState.Adaptive, parent: RaidId,
                           streams: seq<string>, depth: nat): seq<Candidate>
    requires parent in m
  {
    if streams == [] then []
    else
      var n := |streams| - 1;
      GroupCandidates(m, env, a, parent, streams[..n], depth)
      + match GroupCandidate(m, env, a, parent, streams[n], depth)
        case None => []
        case Some(c) => [c]
  }

  lemma {:induction false} GroupCandidatesAre(m: Raids, env: Environment, a: RaidState.Adaptive, parent: RaidId,
                                              streams: seq<string>, depth: nat, c: Candidate)
    requires parent in m
    ensures c in GroupCandidates(m, env, a, parent, streams, depth) <==>
            exists k :: 0 <= k < |streams| && GroupCandidate(m, env, a, parent, streams[k], depth) == Some(c)
  {
    hide GroupCandidate;
    if streams != [] {
      var n := |streams| - 1;
      GroupCandidatesAre(m, env, a, parent, streams[..n], depth, c);
      if k: nat :| k < |streams| && GroupCandidate(m, env, a, parent, streams[k], depth) == Some(c) {
        assert k == n || streams[..n][k] == streams[k];
      }
    }
  }

  /** All candidates of a subtree, as `collectAdaptiveTargetGroups` visits it. */
  function Candidates(m: Raids, top: nat, env: Environment, a: RaidState.Adaptive, i: RaidId, depth: nat): seq<Candidate>
    requires WellFormed(m, top) && i in m
    decreases top - i, 1, 0
  {
    if m[i].children == [] then []
    else
      OlderThan(m, top, i);
      GroupCandidates(m, env, a, i, Streams(m, m[i].children), depth)
      + CandidatesBelow(m, top, env, a, i, |m[i].children|, depth + 1)
  }

  function CandidatesBelow(m: Raids, top: nat, env: Environment, a: RaidState.Adaptive, i: RaidId, n: nat, depth: nat): seq<Candidate>
    requires WellFormed(m, top) && i in m && i < top && n <= |m[i].children|
    decreases top - i, 0, n
  {
    if n == 0 then []
    else
      ChildBelow(m, top, i, n - 1);
      CandidatesBelow(m, top, env, a, i, n - 1, depth) + Candidates(m, top, env, a, m[i].children[n - 1], depth)
  }

  /** Comes before in the sorting of candidates. */
  predicate Precedes(a: Candidate, b: Candidate) {
    if a.priority != b.priority then a.priority < b.priority
    else if a.depth != b.depth then a.depth > b.depth
    else a.bestScore < b.bestScore
  }

  function Pick(cs: seq<Candidate>): (c: Candidate)
    requires cs != []
    ensures c in cs && forall d :: d in cs ==> !Precedes(d, c)
  {
    if |cs| == 1 then cs[0]
    else
      var front := cs[..|cs| - 1];
      assert forall y :: y in cs <==> y in front || y == cs[|cs| - 1];
      var b := Pick(front);
      if Precedes(cs[|cs| - 1], b) then cs[|cs| - 1] else b
  }

  // ----- which candidates there are

  /** The steps from `a` down to `x`. */
  ghost function Distance(m: Raids, a: RaidId, x: RaidId): nat
    requires Below(m, a, x)
    decreases x
  {
    if x == a then 0 else 1 + Distance(m, a, m[x].parent.value)
  }

  lemma {:induction false} DistanceVia(m: Raids, top: nat, i: RaidId, c: RaidId, x: RaidId)
    requires WellFormed(m, top) && c in m && m[c].parent == Some(i) && i < c && Below(m, c, x)
    ensures Below(m, i, x) && Distance(m, i, x) == Distance(m, c, x) + 1
    decreases x
  {
    BelowIsOlder(m, c, x);
    if x == c {
      assert Below(m, i, i);
    } else {
      DistanceVia(m, top, i, c, m[x].parent.value);
    }
  }

  ghost predicate IsCandidate(m: Raids, env: Environment, a: RaidState.Adaptive, i: RaidId, depth: nat, c: Candidate) {
    && c.parent in m && Below(m, i, c.parent)
    && GroupCandidate(m, env, a, c.parent, c.workstream, depth + Distance(m, i, c.parent)) == Some(c)
  }

  lemma GroupCandidateStream(m: Raids, env: Environment, a: RaidState.Adaptive, parent: RaidId, workstream: string, depth: nat)
    requires parent in m && GroupCandidate(m, env, a, parent, workstream, depth).Some?
    ensures workstream in Streams(m, m[parent].children) && m[parent].children != []
    ensures var c := GroupCandidate(m, env, a, parent, workstream, depth).value;
            c.parent == parent && c.workstream == workstream && c.depth == depth
  {
    var group := Members(m, m[parent].children, workstream);
    assert group[0] in group;
    var k: nat :| k < |m[parent].children| && m[parent].children[k] == group[0];
  }

  /** The candidates of a subtree are the qualifying workstreams of its inner raids, each with
      its distance from the top. */
  lemma {:induction false} CandidatesAre(m: Raids, top: nat, env: Environment, a: RaidState.Adaptive,
                                         i: RaidId, depth: nat, c: Candidate)
    requires WellFormed(m, top) && i in m
    ensures c in Candidates(m, top, env, a, i, depth) <==> IsCandidate(m, env, a, i, depth, c)
    decreases top - i, 1, 0
  {
    hide GroupCandidate, NodeOk, Below, WellFormed, Streams, CandidatesBelow, GroupCandidates;
    BelowItself(m, i);
    var children := m[i].children;
    if IsCandidate(m, env, a, i, depth, c) {
      GroupCandidateStream(m, env, a, c.parent, c.workstream, depth + Distance(m, i, c.parent));
    }
    if children == [] {
      if IsCandidate(m, env, a, i, depth, c) {
        if c.parent != i {
          var k := BelowSomeChild(m, top, i, c.parent);
          assert false;
        }
      }
    } else {
      OlderThan(m, top, i);
      OwnCandidates(m, env, a, i, depth, c);
      CandidatesBelowAre(m, top, env, a, i, |children|, depth + 1, c);
      if IsCandidate(m, env, a, i, depth, c) && c.parent != i {
        var k := BelowSomeChild(m, top, i, c.parent);
        BelowFirstAt(m, children, |children|, k, c.parent);
      }
    }
  }

  lemma OwnCandidates(m: Raids, env: Environment, a: RaidState.Adaptive, i: RaidId, depth: nat, c: Candidate)
    requires i in m
    ensures c in GroupCandidates(m, env, a, i, Streams(m, m[i].children), depth) <==>
            c.parent == i && IsCandidate(m, env, a, i, depth, c)
  {
    hide GroupCandidate, Streams, GroupCandidates;
    var streams := Streams(m, m[i].children);
    GroupCandidatesAre(m, env, a, i, streams, depth, c);
    if k: nat :| k < |streams| && GroupCandidate(m, env, a, i, streams[k], depth) == Some(c) {
      GroupCandidateStream(m, env, a, i, streams[k], depth);
    }
    if c.parent == i && IsCandidate(m, env, a, i, depth, c) {
      GroupCandidateStream(m, env, a, i, c.workstream, depth);
      var k: nat :| k < |streams| && streams[k] == c.workstream;
    }
  }

  lemma {:induction false} CandidatesBelowAre(m: Raids, top: nat, env: Environment, a: RaidState.Adaptive,
                                              i: RaidId, n: nat, depth: nat, c: Candidate)
    requires WellFormed(m, top) && i in m && i < top && n <= |m[i].children| && depth >= 1
    ensures c in CandidatesBelow(m, top, env, a, i, n, depth) <==>
            BelowFirst(m, m[i].children, n, c.parent) && IsCandidate(m, env, a, i, depth - 1, c)
    decreases top - i, 0, n
  {
    hide GroupCandidate, NodeOk, Below, WellFormed, Candidates;
    if n > 0 {
      var child := m[i].children[n - 1];
      ChildBelow(m, top, i, n - 1);
      CandidatesBelowAre(m, top, env, a, i, n - 1, depth, c);
      CandidatesAre(m, top, env, a, child, depth, c);
      if Below(m, child, c.parent) {
        DistanceVia(m, top, i, child, c.parent);
        BelowFirstAt(m, m[i].children, n, n - 1, c.parent);
      }
    }
  }

  /** `selectAdaptiveReplanTarget` finds a target exactly when some workstream below qualifies,
      and no qualifying one comes before it. */
  lemma TargetIffSomeQualifies(m: Raids, top: nat, env: Environment, a: RaidState.Adaptive, id: RaidId)
    requires WellFormed(m, top) && id in m
    ensures Candidates(m, top, env, a, id, 0) == [] <==>
            forall p, w :: p in m && Below(m, id, p) ==> !Qualifies(m, a, p, w)
    ensures Candidates(m, top, env, a, id, 0) != [] ==>
            var t := Pick(Candidates(m, top, env, a, id, 0));
            && IsCandidate(m, env, a, id, 0, t)
            && forall d :: IsCandidate(m, env, a, id, 0, d) ==> !Precedes(d, t)
  {
    hide GroupCandidate, NodeOk, Below, WellFormed, Candidates, Qualifies, Precedes;
    var cs := Candidates(m, top, env, a, id, 0);
    forall c
      ensures c in cs <==> IsCandidate(m, env, a, id, 0, c)
    {
      CandidatesAre(m, top, env, a, id, 0, c);
    }
    forall p, w | p in m && Below(m, id, p)
      ensures Qualifies(m, a, p, w) ==> cs != []
    {
      var d := Distance(m, id, p);
      GroupCandidateIff(m, env, a, p, w, d);
      if Qualifies(m, a, p, w) {
        GroupCandidateStream(m, env, a, p, w, d);
        assert IsCandidate(m, env, a, id, 0, GroupCandidate(m, env, a, p, w, d).value);
      }
    }
    if cs != [] {
      var t := Pick(cs);
      assert t in cs;
      GroupCandidateIff(m, env, a, t.parent, t.workstream, Distance(m, id, t.parent));
    }
  }

  // ----- what is revised, and how

  /** The `k`-th child is the first one that no other beats. */
  predicate FirstBest(m: Raids, group: seq<RaidId>, k: nat)
    requires forall x :: x in group ==> x in m
  {
    && k < |group|
    && (forall j :: 0 <= j < k ==> BestScore(m[group[j]]) < BestScore(m[group[k]]))
    && forall j :: k < j < |group| ==> BestScore(m[group[j]]) <= BestScore(m[group[k]])
  }

  lemma FirstBestNext(m: Raids, group: seq<RaidId>, k: nat)
    requires group != [] && forall x :: x in group ==> x in m
    requires (forall x :: x in group[..|group| - 1] ==> x in m) && FirstBest(m, group[..|group| - 1], k)
    ensures var n := |group| - 1;
            FirstBest(m, group, if BestScore(m[group[n]]) > BestScore(m[group[k]]) then n else k)
  {
    hide BestScore;
    assert forall j :: 0 <= j < |group| - 1 ==> group[..|group| - 1][j] == group[j];
  }

  lemma {:induction false} BestIsFirst(m: Raids, group: seq<RaidId>) returns (k: nat)
    requires group != [] && forall x :: x in group ==> x in m
    ensures FirstBest(m, group, k) && group[k] == Best(m, group)
  {
    hide BestScore, FirstBest;
    if |group| == 1 {
      OnlyOne(m, group);
      k := 0;
    } else {
      var n := |group| - 1;
      assert forall y :: y in group[..n] ==> y in group;
      k := BestIsFirst(m, group[..n]);
      FirstBestIn(m, group[..n], k);
      FirstBestNext(m, group, k);
      if BestScore(m[group[n]]) > BestScore(m[group[k]]) {
        k := n;
      }
    }
  }

  lemma OnlyOne(m: Raids, group: seq<RaidId>)
    requires |group| == 1 && forall x :: x in group ==> x in m
    ensures FirstBest(m, group, 0)
  {
  }

  lemma FirstBestIn(m: Raids, group: seq<RaidId>, k: nat)
    requires (forall x :: x in group ==> x in m) && FirstBest(m, group, k)
    ensures k < |group|
  {
  }

  /** In a ranking the best score is the highest of all. */
  lemma BestScoreIs(r: Raid, entries: seq<Entry>)
    requires r.ranked == Rank(entries)
    ensures entries == [] ==> BestScore(r) == 0.0
    ensures entries != [] ==> (exists k :: 0 <= k < |r.ranked| && r.ranked[k].score == BestScore(r))
                              && forall k :: 0 <= k < |r.ranked| ==> r.ranked[k].score <= BestScore(r)
  {
    RankIsSortedPermutation(entries);
    hide Rank;
    if entries != [] {
      assert r.ranked[0].score == BestScore(r);
    }
  }

  /** No child of the workstream has a valid submission. */
  predicate Missing(m: Raids, parent: RaidId, workstream: string)
    requires parent in m
  {
    forall x :: x in Members(m, m[parent].children, workstream) && x in m ==>
      forall k :: 0 <= k < |m[x].ranked| ==> !m[x].ranked[k].valid
  }

  /** What is done for a workstream: the pool allows an expansion with up to three experts where no
      submission is valid and up to two where they are weak; with at least two, a child family and
      no expansion before it is an expansion, else a repair with one. It starts from the child with
      the best score, of those with a valid submission if there are any. */
  lemma CandidateIs(m: Raids, env: Environment, a: RaidState.Adaptive, parent: RaidId, workstream: string, depth: nat)
    requires parent in m && GroupCandidate(m, env, a, parent, workstream, depth).Some?
    ensures var c := GroupCandidate(m, env, a, parent, workstream, depth).value;
            var missing := Missing(m, parent, workstream);
            var n := if missing then (if |a.available| < 3 then |a.available| else 3) else (if |a.available| < 2 then |a.available| else 2);
            && c.parent == parent && c.workstream == workstream && c.depth == depth
            && (c.strategy.Expand? <==> workstream in env.childFamily && n >= 2 && Expansions(a.history, parent, workstream) == 0)
            && c.experts == (if c.strategy.Expand? then n else 1)
            && c.family == (if c.strategy.Expand? then Some(env.childFamily[workstream]) else None)
            && c.priority == (if missing then 0 else if env.priority(parent, workstream) then 1 else 2)
            && SourceOf(m, parent, workstream, c.source)
            && (if missing then c.bestScore == 0.0 else TopScore(m, parent, workstream, c.bestScore) && c.bestScore < 0.72)
  {
    hide BestScore, Expansions, Revisions, Members, Missing, TopScore, SourceOf;
    var group := Members(m, m[parent].children, workstream);
    var valid := Valid(m, group);
    ValidMembers(m, parent, workstream);
    assert forall x :: x in group ==> x in m;
    BestHighest(m, parent, workstream);
    SourceFound(m, parent, workstream);
  }

  lemma ValidMembers(m: Raids, parent: RaidId, workstream: string)
    requires parent in m
    ensures Valid(m, Members(m, m[parent].children, workstream)) == [] <==> Missing(m, parent, workstream)
  {
    hide Members;
    var group := Members(m, m[parent].children, workstream);
    var valid := Valid(m, group);
    if valid != [] {
      assert valid[0] in valid && HasValidOutput(m[valid[0]]);
    } else {
      forall x | x in group && x in m
        ensures !HasValidOutput(m[x])
      {
        assert x !in valid;
      }
    }
  }

  /** The child a revision starts from: with a valid submission, if some child has one, and of
      these, or else of all, none has a better score. */
  predicate SourceOf(m: Raids, parent: RaidId, workstream: string, source: RaidId)
    requires parent in m
  {
    var group := Members(m, m[parent].children, workstream);
    && source in group && source in m
    && (!Missing(m, parent, workstream) ==> HasValidOutput(m[source]))
    && forall x :: x in group && x in m && (Missing(m, parent, workstream) || HasValidOutput(m[x])) ==>
         BestScore(m[x]) <= BestScore(m[source])
  }

  lemma SourceFound(m: Raids, parent: RaidId, workstream: string)
    requires parent in m && Members(m, m[parent].children, workstream) != []
    ensures var group := Members(m, m[parent].children, workstream);
            var valid := Valid(m, group);
            SourceOf(m, parent, workstream, Best(m, if valid != [] then valid else group))
  {
    hide BestScore, Members, Missing, HasValidOutput;
    var group := Members(m, m[parent].children, workstream);
    ValidMembers(m, parent, workstream);
    assert forall x :: x in group ==> x in m;
  }

  /** The highest score of the children, and zero at least. */
  predicate TopScore(m: Raids, parent: RaidId, workstream: string, score: real)
    requires parent in m
  {
    var group := Members(m, m[parent].children, workstream);
    && score >= 0.0 && (forall x :: x in group && x in m ==> BestScore(m[x]) <= score)
    && (score == 0.0 || exists x :: x in group && x in m && BestScore(m[x]) == score)
  }

  lemma BestHighest(m: Raids, parent: RaidId, workstream: string)
    requires parent in m && Members(m, m[parent].children, workstream) != []
    ensures var group := Members(m, m[parent].children, workstream);
            (forall x :: x in group ==> x in m) && TopScore(m, parent, workstream, Planning.MaxReal(BestScore(m[Best(m, group)]), 0.0))
  {
    hide BestScore, Members;
    var group := Members(m, m[parent].children, workstream);
    assert forall x :: x in group ==> x in m;
  }

  /** Which workstream is revised first. Of any two that qualify: one without a valid submission
      comes before one with; then one that has priority; then the one farther down; then the one
      whose best score is lower. */
  lemma TargetComesFirst(m: Raids, env: Environment, a: RaidState.Adaptive, id: RaidId, t: Candidate, p: RaidId, w: string)
    requires IsCandidate(m, env, a, id, 0, t) && forall d :: IsCandidate(m, env, a, id, 0, d) ==> !Precedes(d, t)
    requires p in m && Below(m, id, p) && Qualifies(m, a, p, w)
    ensures t.parent in m && Below(m, id, t.parent)
    ensures var missing, other := Missing(m, t.parent, t.workstream), Missing(m, p, w);
            var first, second := env.priority(t.parent, t.workstream), env.priority(p, w);
            && (other ==> missing)
            && (missing && other ==> Distance(m, id, t.parent) >= Distance(m, id, p))
            && (!missing ==> (second ==> first))
            && (!missing && first == second ==> Distance(m, id, t.parent) >= Distance(m, id, p))
            && (!missing && first == second && Distance(m, id, t.parent) == Distance(m, id, p) ==>
                  forall s, s' :: TopScore(m, t.parent, t.workstream, s) && TopScore(m, p, w, s') ==> s <= s')
  {
    hide Below, Distance, GroupCandidate, Qualifies, Missing, TopScore, SourceOf;
    var d := Distance(m, id, p);
    GroupCandidateIff(m, env, a, p, w, d);
    CandidateIs(m, env, a, p, w, d);
    CandidateIs(m, env, a, t.parent, t.workstream, Distance(m, id, t.parent));
    var other := GroupCandidate(m, env, a, p, w, d).value;
    assert IsCandidate(m, env, a, id, 0, other);
    assert !Precedes(other, t);
    forall s, s' | TopScore(m, t.parent, t.workstream, s) && TopScore(m, p, w, s')
      ensures !Missing(m, t.parent, t.workstream) ==> s == t.bestScore
      ensures !Missing(m, p, w) ==> s' == other.bestScore
    {
      if !Missing(m, t.parent, t.workstream) {
        TopScoreOnce(m, t.parent, t.workstream, s, t.bestScore);
      }
      if !Missing(m, p, w) {
        TopScoreOnce(m, p, w, s', other.bestScore);
      }
    }
  }

  lemma TopScoreOnce(m: Raids, p: RaidId, w: string, s: real, s': real)
    requires p in m && TopScore(m, p, w, s) && TopScore(m, p, w, s')
    ensures s == s'
  {
    hide BestScore, Members;
  }

  // ----- among equals the first in the tree

  /** `w` is the workstream of an earlier child than any of workstream `v`. */
  ghost predicate StreamFirst(m: Raids, children: seq<RaidId>, w: string, v: string) {
    exists k :: 0 <= k < |children| && children[k] in m && m[children[k]].workstream == Some(w)
                && forall j :: 0 <= j <= k && children[j] in m ==> m[children[j]].workstream != Some(v)
  }

  /** One candidate comes before the other in the tree: another workstream of the same raid that
      begins earlier, one above the other, or below an earlier child of some raid. */
  ghost predicate Sooner(m: Raids, c: Candidate, d: Candidate) {
    || (c.parent == d.parent && c.parent in m && StreamFirst(m, m[c.parent].children, c.workstream, d.workstream))
    || (c.parent != d.parent && Below(m, c.parent, d.parent))
    || exists x, j, k :: Branch(m, x, j, k, c.parent, d.parent)
  }

  ghost predicate Branch(m: Raids, x: RaidId, j: nat, k: nat, p: RaidId, q: RaidId) {
    x in m && j < k < |m[x].children| && Below(m, m[x].children[j], p) && Below(m, m[x].children[k], q)
  }

  ghost predicate Sorted(m: Raids, cs: seq<Candidate>) {
    forall a, b :: 0 <= a < b < |cs| ==> Sooner(m, cs[a], cs[b])
  }

  lemma StreamFirstLonger(m: Raids, children: seq<RaidId>, w: string, v: string)
    requires children != [] && StreamFirst(m, children[..|children| - 1], w, v)
    ensures StreamFirst(m, children, w, v)
  {
    var front := children[..|children| - 1];
    var k: nat :| k < |front| && front[k] in m && m[front[k]].workstream == Some(w)
                  && forall j :: 0 <= j <= k && front[j] in m ==> m[front[j]].workstream != Some(v);
    assert forall j :: 0 <= j <= k ==> children[j] == front[j];
  }

  lemma {:induction false} StreamsSorted(m: Raids, children: seq<RaidId>, a: nat, b: nat)
    requires a < b < |Streams(m, children)|
    ensures var ws := Streams(m, children); StreamFirst(m, children, ws[a], ws[b])
  {
    var n := |children| - 1;
    var front := children[..n];
    var ws, before := Streams(m, children), Streams(m, front);
    assert before <= ws;
    hide Streams;
    if b < |before| {
      StreamsSorted(m, front, a, b);
      StreamFirstLonger(m, children, ws[a], ws[b]);
    } else {
      assert ws[a] == before[a] && before[a] in before;
      var k: nat :| k < |front| && front[k] in m && m[front[k]].workstream == Some(ws[a]);
      assert ws[b] !in before;
      forall j | 0 <= j <= k && children[j] in m
        ensures m[children[j]].workstream != Some(ws[b])
      {
        assert children[j] == front[j];
      }
      assert children[k] == front[k];
    }
  }

  lemma SortedAppend(m: Raids, a: seq<Candidate>, b: seq<Candidate>)
    requires Sorted(m, a) && Sorted(m, b) && forall c, d :: c in a && d in b ==> Sooner(m, c, d)
    ensures Sorted(m, a + b)
  {
    hide Sooner;
    forall i, j | 0 <= i < j < |a + b|
      ensures Sooner(m, (a + b)[i], (a + b)[j])
    {
      if i < |a| <= j {
        assert a[i] in a && b[j - |a|] in b;
      }
    }
  }

  lemma {:induction false} OwnSorted(m: Raids, env: Environment, a: RaidState.Adaptive, i: RaidId, n: nat, depth: nat)
    requires i in m && n <= |Streams(m, m[i].children)|
    ensures Sorted(m, GroupCandidates(m, env, a, i, Streams(m, m[i].children)[..n], depth))
  {
    hide GroupCandidate, Streams, Sooner;
    var streams := Streams(m, m[i].children);
    if n > 0 {
      OwnSorted(m, env, a, i, n - 1, depth);
      assert streams[..n][..n - 1] == streams[..n - 1];
      var before := GroupCandidates(m, env, a, i, streams[..n - 1], depth);
      match GroupCandidate(m, env, a, i, streams[n - 1], depth)
      case None =>
      case Some(d) =>
        GroupCandidateStream(m, env, a, i, streams[n - 1], depth);
        forall c | c in before
          ensures Sooner(m, c, d)
        {
          GroupCandidatesAre(m, env, a, i, streams[..n - 1], depth, c);
          var k: nat :| k < n - 1 && GroupCandidate(m, env, a, i, streams[..n - 1][k], depth) == Some(c);
          GroupCandidateStream(m, env, a, i, streams[k], depth);
          StreamsSorted(m, m[i].children, k, n - 1);
          SameParent(m, c, d);
        }
        SortedAppend(m, before, [d]);
    }
  }

  lemma SameParent(m: Raids, c: Candidate, d: Candidate)
    requires c.parent == d.parent && c.parent in m && StreamFirst(m, m[c.parent].children, c.workstream, d.workstream)
    ensures Sooner(m, c, d)
  {
  }

  /** The candidates come in the order of the tree. */
  lemma {:induction false} CandidatesSorted(m: Raids, top: nat, env: Environment, a: RaidState.Adaptive, i: RaidId, depth: nat)
    requires WellFormed(m, top) && i in m
    ensures Sorted(m, Candidates(m, top, env, a, i, depth))
    decreases top - i, 1, 0
  {
    hide GroupCandidate, GroupCandidates, Streams, Sooner, Below, WellFormed, CandidatesBelow, IsCandidate;
    if m[i].children != [] {
      OlderThan(m, top, i);
      var streams := Streams(m, m[i].children);
      var own := GroupCandidates(m, env, a, i, streams, depth);
      var rest := CandidatesBelow(m, top, env, a, i, |m[i].children|, depth + 1);
      OwnSorted(m, env, a, i, |streams|, depth);
      assert streams[..|streams|] == streams;
      CandidatesBelowSorted(m, top, env, a, i, |m[i].children|, depth + 1);
      forall c, d | c in own && d in rest
        ensures Sooner(m, c, d)
      {
        OwnCandidates(m, env, a, i, depth, c);
        CandidatesBelowAre(m, top, env, a, i, |m[i].children|, depth + 1, d);
        AboveSooner(m, top, i, c, d);
      }
      SortedAppend(m, own, rest);
    }
  }

  lemma AboveSooner(m: Raids, top: nat, i: RaidId, c: Candidate, d: Candidate)
    requires WellFormed(m, top) && i in m && c.parent == i && BelowFirst(m, m[i].children, |m[i].children|, d.parent)
    ensures Sooner(m, c, d)
  {
    hide WellFormed, Below;
    var j: nat :| j < |m[i].children| && Below(m, m[i].children[j], d.parent);
    ChildBelow(m, top, i, j);
    BelowTransitive(m, i, m[i].children[j], d.parent);
    BelowIsOlder(m, m[i].children[j], d.parent);
  }

  lemma {:induction false} CandidatesBelowSorted(m: Raids, top: nat, env: Environment, a: RaidState.Adaptive, i: RaidId, n: nat, depth: nat)
    requires WellFormed(m, top) && i in m && i < top && n <= |m[i].children| && depth >= 1
    ensures Sorted(m, CandidatesBelow(m, top, env, a, i, n, depth))
    decreases top - i, 0, n
  {
    hide GroupCandidate, Sooner, Below, WellFormed, Candidates, IsCandidate;
    if n > 0 {
      ChildBelow(m, top, i, n - 1);
      CandidatesBelowSorted(m, top, env, a, i, n - 1, depth);
      CandidatesSorted(m, top, env, a, m[i].children[n - 1], depth);
      var before, last := CandidatesBelow(m, top, env, a, i, n - 1, depth), Candidates(m, top, env, a, m[i].children[n - 1], depth);
      forall c, d | c in before && d in last
        ensures Sooner(m, c, d)
      {
        CandidatesBelowAre(m, top, env, a, i, n - 1, depth, c);
        CandidatesAre(m, top, env, a, m[i].children[n - 1], depth, d);
        BranchSooner(m, i, n - 1, c, d, env, a, depth);
      }
      SortedAppend(m, before, last);
    }
  }

  lemma BranchSooner(m: Raids, i: RaidId, n: nat, c: Candidate, d: Candidate, env: Environment, a: RaidState.Adaptive, depth: nat)
    requires i in m && n < |m[i].children| && BelowFirst(m, m[i].children, n, c.parent)
    requires IsCandidate(m, env, a, m[i].children[n], depth, d)
    ensures Sooner(m, c, d)
  {
    hide Below, GroupCandidate;
    var j: nat :| j < n && Below(m, m[i].children[j], c.parent);
    assert Branch(m, i, j, n, c.parent, d.parent);
  }

  /** The first of those that none precedes. */
  lemma {:induction false} PickIsFirst(cs: seq<Candidate>) returns (k: nat)
    requires cs != []
    ensures k < |cs| && cs[k] == Pick(cs) && forall j :: 0 <= j < k ==> Precedes(cs[k], cs[j])
  {
    if |cs| == 1 {
      k := 0;
    } else {
      var n := |cs| - 1;
      k := PickIsFirst(cs[..n]);
      assert Pick(cs[..n]) == cs[k];
      if Precedes(cs[n], cs[k]) {
        assert forall j :: 0 <= j < n ==> cs[j] in cs[..n];
        forall j | 0 <= j < n
          ensures Precedes(cs[n], cs[j])
        {
          assert !Precedes(cs[..n][j], cs[k]);
          PrecedesOn(cs[n], cs[k], cs[j]);
        }
        k := n;
      }
    }
  }

  lemma PrecedesOn(a: Candidate, b: Candidate, c: Candidate)
    requires Precedes(a, b) && !Precedes(c, b)
    ensures Precedes(a, c)
  {
  }

  /** Of candidates that none precedes the target is the first in the tree. */
  lemma TargetIsSoonest(m: Raids, top: nat, env: Environment, a: RaidState.Adaptive, id: RaidId, d: Candidate)
    requires WellFormed(m, top) && id in m && IsCandidate(m, env, a, id, 0, d)
    requires Candidates(m, top, env, a, id, 0) != []
    ensures var t := Pick(Candidates(m, top, env, a, id, 0)); d == t || Precedes(t, d) || Sooner(m, t, d)
  {
    hide GroupCandidate, Sooner, WellFormed, Candidates, IsCandidate, Precedes;
    var cs := Candidates(m, top, env, a, id, 0);
    CandidatesAre(m, top, env, a, id, 0, d);
    CandidatesSorted(m, top, env, a, id, 0);
    var k := PickIsFirst(cs);
    var j: nat :| j < |cs| && cs[j] == d;
  }
}
