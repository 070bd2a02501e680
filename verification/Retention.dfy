/** Which old raids may be dropped (apps/orchestrator/src/raid-retention.ts). */
module Retention {
  import opened Options
  import opened Sequences
  import opened RaidState

  type Key = string

  /** What retention looks at; `updated` is missing when the date does not parse. */
  datatype Record = Record(id: Key, status: RaidStatus, updated: Option<int>, children: seq<Key>, parent: Option<Key>)

  /** The records by id; of several with one id the last counts. */
  function ById(raids: seq<Record>): map<Key, Record> {
    if raids == [] then map[]
    else
      var last := raids[|raids| - 1];
      ById(raids[..|raids| - 1])[last.id := last]
  }

  predicate Old(r: Record, cutoff: int) {
    Terminal(r.status) && r.updated.Some? && r.updated.value < cutoff
  }

  /** `key` may go along with the members of `s`. */
  predicate Supported(byId: map<Key, Record>, s: set<Key>, key: Key) {
    && key in byId
    && (forall k :: 0 <= k < |byId[key].children| ==> byId[key].children[k] in s)
    && (byId[key].parent.Some? && byId[key].parent.value in byId ==> Terminal(byId[byId[key].parent.value].status))
  }

  /** A set of old raids that may go together: each takes its children along, and none leaves a
      live parent behind. */
  predicate Prunable(raids: seq<Record>, cutoff: int, s: set<Key>) {
    forall key :: key in s ==>
      (exists r :: r in raids && r.id == key && Old(r, cutoff)) && Supported(ById(raids), s, key)
  }

  function Remove(s: seq<Key>, key: Key): (r: seq<Key>)
    requires NoDuplicates(s)
    ensures NoDuplicates(r) && forall x :: x in r <==> x in s && x != key
    ensures |r| <= |s| && (key in s ==> |r| < |s|) && (key !in s ==> r == s)
  {
    if s == [] then []
    else
      var front := s[..|s| - 1];
      assert forall x :: x in s <==> x in front || x == s[|s| - 1];
      assert s[|s| - 1] !in front;
      if s[|s| - 1] == key then Remove(front, key) else Remove(front, key) + [s[|s| - 1]]
  }

  function Retained(raids: seq<Record>, pruned: set<Key>): seq<Record> {
    if raids == [] then []
    else Retained(raids[..|raids| - 1], pruned) + if raids[|raids| - 1].id in pruned then [] else [raids[|raids| - 1]]
  }

  lemma {:induction false} RetainedKeeps(raids: seq<Record>, pruned: set<Key>)
    ensures Kept(raids, Retained(raids, pruned), (r: Record) => r.id !in pruned)
  {
    hide Kept;
    var keep := (r: Record) => r.id !in pruned;
    if raids == [] {
      KeptNothing(keep);
    } else {
      var n := |raids| - 1;
      RetainedKeeps(raids[..n], pruned);
      KeptOneMore(raids[..n], Retained(raids[..n], pruned), keep, raids[n]);
      assert raids == raids[..n] + [raids[n]];
      AppendNothing(Retained(raids[..n], pruned));
    }
  }

  lemma SupportShrinks(byId: map<Key, Record>, s: set<Key>, t: set<Key>, key: Key)
    requires s <= t && Supported(byId, s, key)
    ensures Supported(byId, t, key)
  {
  }

  /** A member without support is in no prunable set. */
  lemma Unsupported(raids: seq<Record>, cutoff: int, t: set<Key>, key: Key)
    requires (forall s :: Prunable(raids, cutoff, s) ==> s <= t) && !Supported(ById(raids), t, key)
    ensures forall s :: Prunable(raids, cutoff, s) ==> s <= t - {key}
  {
    forall s | Prunable(raids, cutoff, s)
      ensures s <= t - {key}
    {
      if key in s {
        SupportShrinks(ById(raids), s, t, key);
        assert false;
      }
    }
  }

  /** The raids that are old enough, each once, in order. */
  method Candidates(raids: seq<Record>, cutoff: int) returns (candidates: seq<Key>)
    ensures NoDuplicates(candidates)
    ensures forall key :: key in candidates <==> exists r :: r in raids && r.id == key && Old(r, cutoff)
  {
    candidates := [];
    for i := 0 to |raids|
      invariant NoDuplicates(candidates)
      invariant forall key :: key in candidates <==> exists r :: r in raids[..i] && r.id == key && Old(r, cutoff)
    {
      assert forall r :: r in raids[..i + 1] <==> r in raids[..i] || r == raids[i];
      if Terminal(raids[i].status) && raids[i].updated.Some? && raids[i].updated.value < cutoff && raids[i].id !in candidates {
        candidates := candidates + [raids[i].id];
      }
    }
    assert raids[..|raids|] == raids;
  }

  /** `pruneTerminalRaidsForRetention`: the largest set of old terminal raids that may go
      together; the rest stays, in order. */
  method PruneTerminalRaids(raids: seq<Record>, ttl: int, now: int) returns (retained: seq<Record>, pruned: seq<Key>)
    ensures ttl <= 0 ==> retained == raids && pruned == []
    ensures ttl > 0 ==>
              var p := Elements(pruned);
              && Prunable(raids, now - ttl, p)
              && (forall s :: Prunable(raids, now - ttl, s) ==> s <= p)
              && retained == Retained(raids, p) && Kept(raids, retained, (r: Record) => r.id !in p)
    ensures NoDuplicates(pruned)
  {
    if ttl <= 0 {
      return raids, [];
    }
    var cutoff := now - ttl;
    var byId := ById(raids);
    var candidates := Candidates(raids, cutoff);
    AllAreCandidates(raids, cutoff, candidates);
    var changed := true;
    while changed
      invariant NoDuplicates(candidates)
      invariant forall key :: key in candidates ==> exists r :: r in raids && r.id == key && Old(r, cutoff)
      invariant forall s :: Prunable(raids, cutoff, s) ==> s <= Elements(candidates)
      invariant !changed ==> forall key :: key in candidates ==> Supported(byId, Elements(candidates), key)
      decreases |candidates|, if changed then 1 else 0
    {
      changed := false;
      var round := candidates;
      for i := 0 to |round|
        invariant NoDuplicates(candidates) && |candidates| <= |round|
        invariant forall key :: key in candidates ==> key in round
        invariant forall s :: Prunable(raids, cutoff, s) ==> s <= Elements(candidates)
        invariant if changed then |candidates| < |round| else candidates == round
        invariant !changed ==> forall j :: 0 <= j < i ==> Supported(byId, Elements(candidates), round[j])
        invariant forall j :: i <= j < |round| ==> round[j] in candidates
      {
        var key := round[i];
        var supported := IsSupported(byId, candidates, key);
        if !supported {
          Unsupported(raids, cutoff, Elements(candidates), key);
          RemoveElement(candidates, key);
          candidates := Remove(candidates, key);
          changed := true;
        }
      }
    }
    pruned := candidates;
    retained := Retained(raids, Elements(pruned));
    RetainedKeeps(raids, Elements(pruned));
    ghost var p := Elements(pruned);
    SameKept(raids, retained, (r: Record) => r.id !in Elements(pruned), (r: Record) => r.id !in p);
  }

  lemma RemoveElement(s: seq<Key>, key: Key)
    requires NoDuplicates(s)
    ensures Elements(Remove(s, key)) == Elements(s) - {key}
  {
  }

  lemma AllAreCandidates(raids: seq<Record>, cutoff: int, candidates: seq<Key>)
    requires forall key :: key in candidates <==> exists r :: r in raids && r.id == key && Old(r, cutoff)
    ensures forall s :: Prunable(raids, cutoff, s) ==> s <= Elements(candidates)
  {
  }

  /** The checks of one raid in a round. */
  method IsSupported(byId: map<Key, Record>, candidates: seq<Key>, key: Key) returns (supported: bool)
    ensures supported == Supported(byId, Elements(candidates), key)
  {
    if key !in byId {
      return false;
    }
    var raid := byId[key];
    for k := 0 to |raid.children|
      invariant forall j :: 0 <= j < k ==> raid.children[j] in Elements(candidates)
    {
      if raid.children[k] !in candidates {
        return false;
      }
    }
    if raid.parent.Some? && raid.parent.value in byId && !Terminal(byId[raid.parent.value].status) {
      return false;
    }
    return true;
  }

  // ----- what the answer does not depend on

  predicate DistinctIds(raids: seq<Record>) {
    forall i, j :: 0 <= i < j < |raids| ==> raids[i].id != raids[j].id
  }

  lemma {:induction false} ByIdIs(raids: seq<Record>)
    requires DistinctIds(raids)
    ensures forall key :: key in ById(raids) <==> exists r :: r in raids && r.id == key
    ensures forall r :: r in raids ==> ById(raids)[r.id] == r
  {
    if raids != [] {
      var front := raids[..|raids| - 1];
      ByIdIs(front);
      assert forall r :: r in raids <==> r in front || r == raids[|raids| - 1];
    }
  }

  /** The same raids in another order: the same sets may go, so the answer is the same. */
  lemma OrderIndependent(a: seq<Record>, b: seq<Record>, cutoff: int, s: set<Key>)
    requires DistinctIds(a) && DistinctIds(b) && forall r :: r in a <==> r in b
    ensures Prunable(a, cutoff, s) <==> Prunable(b, cutoff, s)
  {
    ByIdIs(a);
    ByIdIs(b);
    assert ById(a) == ById(b) by {
      forall key | key in ById(a)
        ensures key in ById(b) && ById(b)[key] == ById(a)[key]
      {
        var r :| r in a && r.id == key;
      }
    }
  }

  /** Pruned and retained raids together are the given ones: nothing is lost, made up or
      kept twice. */
  lemma {:induction false} Partition(raids: seq<Record>, pruned: set<Key>, r: Record)
    ensures multiset(Retained(raids, pruned))[r] == if r.id in pruned then 0 else multiset(raids)[r]
  {
    if raids != [] {
      var n := |raids| - 1;
      Partition(raids[..n], pruned, r);
      CountLast(raids, r);
      if raids[n].id !in pruned {
        CountLast(Retained(raids[..n], pruned) + [raids[n]], r);
      }
    }
  }

  lemma CountLast(raids: seq<Record>, r: Record)
    requires raids != []
    ensures multiset(raids)[r] == multiset(raids[..|raids| - 1])[r] + if raids[|raids| - 1] == r then 1 else 0
  {
    assert raids == raids[..|raids| - 1] + [raids[|raids| - 1]];
  }

  /** A recent terminal parent may stay although its old children go: such a child is prunable
      by itself. */
  lemma ChildWithoutParent(parent: Record, child: Record, cutoff: int)
    requires parent.id != child.id && child.parent == Some(parent.id) && child.children == [] && parent.children == [child.id]
    requires Terminal(parent.status) && !Old(parent, cutoff) && Old(child, cutoff)
    ensures Prunable([parent, child], cutoff, {child.id})
    ensures forall s :: Prunable([parent, child], cutoff, s) ==> parent.id !in s
  {
    var raids := [parent, child];
    assert DistinctIds(raids);
    ByIdIs(raids);
    assert child in raids && parent in raids;
    assert ById(raids)[child.id] == child && ById(raids)[parent.id] == parent;
  }
}
