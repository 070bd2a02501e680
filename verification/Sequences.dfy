/** Sequences without duplicates, and the sizes of sets. */
module Sequences {

  predicate NoDuplicates<T(==)>(s: seq<T>) {
    forall i, j :: 0 <= i < j < |s| ==> s[i] != s[j]
  }

  function Elements<T>(s: seq<T>): set<T> {
    set x | x in s
  }

  lemma {:induction false} NoDuplicatesSize<T>(s: seq<T>)
    requires NoDuplicates(s)
    ensures |Elements(s)| == |s|
  {
    if s != [] {
      var n := |s| - 1;
      NoDuplicatesSize(s[..n]);
      assert Elements(s) == Elements(s[..n]) + {s[n]};
    }
  }

  lemma SubsetSize<T>(a: set<T>, b: set<T>)
    requires a <= b
    ensures |a| <= |b| && (|a| == |b| <==> a == b)
  {
    assert b == a + (b - a);
    if a != b {
      assert |b - a| > 0;
    }
  }

  /** `kept` are the elements of `whole` at these places, which are those to be kept, in order. */
  ghost predicate Picks<T(!new)>(whole: seq<T>, kept: seq<T>, keep: T -> bool, at: seq<nat>) {
    && |at| == |kept|
    && (forall j, k :: 0 <= j < k < |at| ==> at[j] < at[k])
    && (forall k :: 0 <= k < |at| ==> at[k] < |whole| && kept[k] == whole[at[k]] && keep(kept[k]))
    && forall i: nat :: i < |whole| && keep(whole[i]) ==> i in at
  }

  /** What is to be kept is left, as often as it was there and in the same order. */
  ghost predicate Kept<T(!new)>(whole: seq<T>, kept: seq<T>, keep: T -> bool) {
    exists at :: Picks(whole, kept, keep, at)
  }

  lemma KeptNothing<T(!new)>(keep: T -> bool)
    ensures Kept([], [], keep)
  {
    assert Picks([], [], keep, []);
  }

  lemma SameKept<T(!new)>(whole: seq<T>, kept: seq<T>, keep: T -> bool, other: T -> bool)
    requires Kept(whole, kept, keep) && forall x :: keep(x) == other(x)
    ensures Kept(whole, kept, other)
  {
    var at :| Picks(whole, kept, keep, at);
    assert Picks(whole, kept, other, at);
  }

  lemma PicksLast<T(!new)>(whole: seq<T>, kept: seq<T>, keep: T -> bool, x: T, at: seq<nat>)
    requires Picks(whole, kept, keep, at) && keep(x)
    ensures Picks(whole + [x], kept + [x], keep, at + [|whole|])
  {
    var more := at + [|whole|];
    assert more[|at|] == |whole|;
    forall i: nat | i < |whole + [x]| && keep((whole + [x])[i])
      ensures i in more
    {
      if i < |whole| {
        assert keep(whole[i]) && i in at;
      }
    }
  }

  lemma PicksNotLast<T(!new)>(whole: seq<T>, kept: seq<T>, keep: T -> bool, x: T, at: seq<nat>)
    requires Picks(whole, kept, keep, at) && !keep(x)
    ensures Picks(whole + [x], kept, keep, at)
  {
    forall i: nat | i < |whole + [x]| && keep((whole + [x])[i])
      ensures i in at
    {
      assert i < |whole| && keep(whole[i]);
    }
  }

  lemma KeptOneMore<T(!new)>(whole: seq<T>, kept: seq<T>, keep: T -> bool, x: T)
    requires Kept(whole, kept, keep)
    ensures Kept(whole + [x], if keep(x) then kept + [x] else kept, keep)
  {
    hide Picks;
    var at :| Picks(whole, kept, keep, at);
    if keep(x) {
      PicksLast(whole, kept, keep, x, at);
    } else {
      PicksNotLast(whole, kept, keep, x, at);
    }
  }

  /** `t` is the end of `s`. */
  predicate Suffix<T(==)>(s: seq<T>, t: seq<T>) {
    |t| <= |s| && t == s[|s| - |t|..]
  }

  lemma SuffixOn<T>(a: seq<T>, b: seq<T>, c: seq<T>)
    requires Suffix(a, b) && Suffix(b, c)
    ensures Suffix(a, c)
  {
    assert b[|b| - |c|..] == a[|a| - |c|..];
  }

  lemma SuffixAt<T>(s: seq<T>, k: nat)
    requires k <= |s|
    ensures Suffix(s, s[k..])
  {
  }

  lemma Associative<T>(a: seq<T>, b: seq<T>, c: seq<T>)
    ensures (a + b) + c == a + (b + c)
  {
  }

  lemma AppendNothing<T>(a: seq<T>)
    ensures a + [] == a
  {
  }

  lemma SplitLast<T>(s: seq<T>)
    requires s != []
    ensures s == s[..|s| - 1] + [s[|s| - 1]]
    ensures multiset(s) == multiset(s[..|s| - 1]) + multiset{s[|s| - 1]}
  {
    assert s == s[..|s| - 1] + [s[|s| - 1]];
  }
}
