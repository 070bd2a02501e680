/** Aborting a raid cancels everything live below it (apps/orchestrator/src/raid-lifecycle-ingress.ts). */
module Cancellation {
  import opened Options
  import opened RaidState
  import opened RaidTree
  import opened Expiry

  /** A cancelled raid: nobody of it is still at work. */
  function Aborted(r: Raid): Raid {
    r.(status := Cancelled,
       assignments := map p | p in r.assignments ::
         if Settled(r.assignments[p].status) then r.assignments[p]
         else r.assignments[p].(status := AssignmentStatus.Disqualified))
  }

  /** `x` is `id` or below it, and every raid on the way down is live. */
  predicate LivePath(m: Raids, id: RaidId, x: RaidId)
    decreases x
  {
    Live(m, x) && (x == id || (m[x].parent.Some? && m[x].parent.value < x && LivePath(m, id, m[x].parent.value)))
  }

  lemma {:induction false} LivePathBelow(m: Raids, id: RaidId, x: RaidId)
    requires LivePath(m, id, x)
    ensures Below(m, id, x) && Live(m, x) && Live(m, id)
    decreases x
  {
    if x != id {
      LivePathBelow(m, id, m[x].parent.value);
    }
  }

  /** From a tree without live raids below terminal ones, the live paths lead to all live raids. */
  lemma {:induction false} LivePathIff(m: Raids, top: nat, id: RaidId, x: RaidId)
    requires WellFormed(m, top) && Guarded(m, {}) && id in m
    ensures LivePath(m, id, x) <==> Below(m, id, x) && Live(m, x)
    decreases x
  {
    if x in m && x != id && m[x].parent.Some? {
      assert NodeOk(m, top, x);
      LivePathIff(m, top, id, m[x].parent.value);
    }
  }

  /** Everything on a live path from `id` was cancelled, nothing else changed. */
  ghost predicate AbortedBelow(m: Raids, m': Raids, id: RaidId) {
    m'.Keys == m.Keys && forall x :: x in m ==> m'[x] == if LivePath(m, id, x) then Aborted(m[x]) else m[x]
  }

  /** A raid was cancelled: of its assignments those that were not over are disqualified. */
  ghost predicate CancelledFrom(r: Raid, r': Raid) {
    && r' == r.(status := Cancelled, assignments := r'.assignments) && r'.assignments.Keys == r.assignments.Keys
    && forall p :: p in r.assignments ==>
         var s := r.assignments[p].status;
         r'.assignments[p] == if s.Submitted? || s.Invalid? || s.TimedOut? || s.Failed? || s.Disqualified? then r.assignments[p]
                              else r.assignments[p].(status := AssignmentStatus.Disqualified)
  }

  lemma AbortedCancels(m: Raids, m': Raids, id: RaidId)
    requires AbortedBelow(m, m', id)
    ensures forall x :: x in m && LivePath(m, id, x) ==> x in m' && CancelledFrom(m[x], m'[x])
    ensures forall x :: x in m && !LivePath(m, id, x) ==> x in m' && m'[x] == m[x]
  {
  }

  /** On a live path that starts at one of the first `k` children. */
  ghost predicate PathFirst(m: Raids, children: seq<RaidId>, k: nat, x: RaidId) {
    exists j :: 0 <= j < k && j < |children| && LivePath(m, children[j], x)
  }

  ghost predicate AbortedFirst(m: Raids, m': Raids, id: RaidId, k: nat)
    requires id in m
  {
    m'.Keys == m.Keys &&
    forall x :: x in m ==>
      m'[x] == if x == id then m[x].(status := Cancelled)
               else if PathFirst(m, m[id].children, k, x) then Aborted(m[x]) else m[x]
  }

  lemma AbortedTree(m: Raids, m': Raids, top: nat, id: RaidId, k: nat)
    requires WellFormed(m, top) && id in m && AbortedFirst(m, m', id, k)
    ensures WellFormed(m', top)
    ensures forall a, x :: Below(m', a, x) == Below(m, a, x)
  {
    hide Below, PathFirst, WellFormed, NodeOk;
    WellFormedSameTree(m, m', top);
    forall a, x
      ensures Below(m', a, x) == Below(m, a, x)
    {
      BelowDepends(m, m', a, x);
    }
  }

  lemma {:induction false} LivePathDepends(m: Raids, m': Raids, c: RaidId, x: RaidId)
    requires m'.Keys == m.Keys && forall y :: y in m && Below(m, c, y) ==> m'[y] == m[y]
    requires forall y :: y in m ==> m'[y].parent == m[y].parent
    requires Below(m, c, x)
    ensures LivePath(m', c, x) == LivePath(m, c, x)
    decreases x
  {
    if x != c {
      LivePathDepends(m, m', c, m[x].parent.value);
    }
  }

  /** The next child is as it was, and so is what lies below it. */
  lemma NextChildUntouched(m: Raids, m': Raids, top: nat, id: RaidId, k: nat)
    requires WellFormed(m, top) && id in m && k < |m[id].children| && AbortedFirst(m, m', id, k)
    ensures var c := m[id].children[k];
            && c in m' && id < c && WellFormed(m', top)
            && (forall x :: x in m && Below(m, c, x) ==> m'[x] == m[x])
            && forall x :: LivePath(m', c, x) == LivePath(m, c, x)
  {
    hide NodeOk, Below, Live;
    var c := m[id].children[k];
    ChildBelow(m, top, id, k);
    AbortedTree(m, m', top, id, k);
    forall x | x in m && Below(m, c, x)
      ensures m'[x] == m[x] && x != id
    {
      BelowIsOlder(m, c, x);
      if j: nat :| j < k && LivePath(m, m[id].children[j], x) {
        LivePathBelow(m, m[id].children[j], x);
        BelowOtherChild(m, top, id, j, k, x);
      }
    }
    forall x
      ensures LivePath(m', c, x) == LivePath(m, c, x)
    {
      if Below(m, c, x) {
        LivePathDepends(m, m', c, x);
      } else {
        NoPath(m, c, x);
        NoPath(m', c, x);
      }
    }
  }

  lemma NoPath(m: Raids, c: RaidId, x: RaidId)
    requires !Below(m, c, x)
    ensures !LivePath(m, c, x)
  {
    if LivePath(m, c, x) {
      LivePathBelow(m, c, x);
    }
  }

  lemma AbortNextChild(m: Raids, m1: Raids, m2: Raids, top: nat, id: RaidId, k: nat)
    requires WellFormed(m, top) && id in m && k < |m[id].children| && AbortedFirst(m, m1, id, k)
    requires AbortedBelow(m1, m2, m[id].children[k])
    ensures AbortedFirst(m, m2, id, k + 1)
  {
    hide NodeOk, Below, Aborted, WellFormed, LivePath;
    var cs := m[id].children;
    NextChildUntouched(m, m1, top, id, k);
    forall x | x in m
      ensures m2[x] == if x == id then m[x].(status := Cancelled)
                       else if PathFirst(m, cs, k + 1, x) then Aborted(m[x]) else m[x]
    {
      if LivePath(m, cs[k], x) {
        LivePathBelow(m, cs[k], x);
        BelowIsOlder(m, cs[k], x);
        assert PathFirst(m, cs, k + 1, x);
      } else if j: nat :| j < k && LivePath(m, cs[j], x) {
        assert PathFirst(m, cs, k + 1, x);
      }
    }
  }

  lemma AbortOwn(m: Raids, m1: Raids, top: nat, id: RaidId)
    requires WellFormed(m, top) && Live(m, id) && AbortedFirst(m, m1, id, |m[id].children|)
    ensures AbortedBelow(m, m1[id := Aborted(m1[id])], id)
  {
    hide NodeOk, Below, WellFormed, PathFirst;
    forall x | x in m && x != id
      ensures LivePath(m, id, x) <==> PathFirst(m, m[id].children, |m[id].children|, x)
    {
      PathThroughChild(m, top, id, x);
    }
  }

  /** A live path from `id` goes on from one of its children. */
  lemma {:induction false} PathThroughChild(m: Raids, top: nat, id: RaidId, x: RaidId)
    requires WellFormed(m, top) && Live(m, id) && x in m && x != id
    ensures LivePath(m, id, x) <==> PathFirst(m, m[id].children, |m[id].children|, x)
    decreases x
  {
    hide Below;
    var cs := m[id].children;
    assert NodeOk(m, top, x);
    if m[x].parent.None? {
      NoChildPath(m, top, id, x);
    } else {
      var p := m[x].parent.value;
      if p == id {
        var k: nat :| k < |cs| && cs[k] == x;
        assert LivePath(m, id, x) ==> LivePath(m, cs[k], x);
        NotAbove(m, top, id, x);
      } else {
        PathThroughChild(m, top, id, p);
        PathGoesOn(m, top, id, x);
      }
    }
  }

  lemma NoChildPath(m: Raids, top: nat, id: RaidId, x: RaidId)
    requires WellFormed(m, top) && id in m && x in m && m[x].parent.None?
    ensures !PathFirst(m, m[id].children, |m[id].children|, x)
  {
    var cs := m[id].children;
    if j: nat :| j < |cs| && LivePath(m, cs[j], x) {
      ChildBelow(m, top, id, j);
      assert false;
    }
  }

  lemma NotAbove(m: Raids, top: nat, id: RaidId, x: RaidId)
    requires WellFormed(m, top) && Live(m, id) && x in m && m[x].parent == Some(id)
    ensures LivePath(m, id, x) <==> Live(m, x)
    ensures PathFirst(m, m[id].children, |m[id].children|, x) ==> Live(m, x)
  {
    assert NodeOk(m, top, x);
  }

  lemma PathGoesOn(m: Raids, top: nat, id: RaidId, x: RaidId)
    requires WellFormed(m, top) && id in m && x in m && m[x].parent.Some? && m[x].parent.value != id
    ensures PathFirst(m, m[id].children, |m[id].children|, x)
            <==> Live(m, x) && PathFirst(m, m[id].children, |m[id].children|, m[x].parent.value)
  {
    var cs, p := m[id].children, m[x].parent.value;
    assert NodeOk(m, top, x);
    forall j: nat | j < |cs|
      ensures LivePath(m, cs[j], x) <==> Live(m, x) && LivePath(m, cs[j], p)
    {
      ChildBelow(m, top, id, j);
    }
    if j: nat :| j < |cs| && LivePath(m, cs[j], p) {
      assert Live(m, x) ==> LivePath(m, cs[j], x);
    }
  }

  /** `abortRaid` */
  method Abort(m: Raids, ghost top: nat, id: RaidId) returns (m': Raids)
    requires WellFormed(m, top) && id in m
    ensures AbortedBelow(m, m', id)
    ensures forall x :: x in m && LivePath(m, id, x) ==> x in m' && CancelledFrom(m[x], m'[x])
    decreases top - id
  {
    hide Below, NodeOk, PathFirst, WellFormed, CancelledFrom;
    m' := m;
    if Terminal(m[id].status) {
      NothingLive(m, id);
      AbortedCancels(m, m, id);
      return;
    }
    m' := m'[id := m'[id].(status := Cancelled)];
    var children := m[id].children;
    NoneFirst(m, children);
    TopIsAbove(m, top, id);
    for k := 0 to |children|
      invariant AbortedFirst(m, m', id, k)
    {
      NextChildUntouched(m, m', top, id, k);
      var next := Abort(m', top, children[k]);
      AbortNextChild(m, m', next, top, id, k);
      m' := next;
    }
    AbortOwn(m, m', top, id);
    m' := m'[id := Aborted(m'[id])];
    AbortedCancels(m, m', id);
  }

  /** Nothing starts at a terminal raid. */
  lemma NothingLive(m: Raids, id: RaidId)
    requires id in m && Terminal(m[id].status)
    ensures forall x :: !LivePath(m, id, x)
  {
    forall x
      ensures !LivePath(m, id, x)
    {
      if LivePath(m, id, x) {
        LivePathBelow(m, id, x);
      }
    }
  }

  lemma NoneFirst(m: Raids, children: seq<RaidId>)
    ensures forall x :: !PathFirst(m, children, 0, x)
  {
  }

  lemma TopIsAbove(m: Raids, top: nat, id: RaidId)
    requires WellFormed(m, top) && id in m
    ensures id < top
  {
    assert NodeOk(m, top, id);
  }

  lemma AbortedIs(m: Raids, m': Raids, id: RaidId)
    requires AbortedBelow(m, m', id)
    ensures forall x :: x in m ==> x in m' && m'[x] == if LivePath(m, id, x) then Aborted(m[x]) else m[x]
  {
  }
}
