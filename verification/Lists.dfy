/** What it means for a list to be picked out of another one, said without a way of doing it. */
module Lists {

  // ----- Keeping some elements -----

  predicate IsSubsequence<T(==)>(part: seq<T>, whole: seq<T>)
    decreases |whole|
  {
    || part == []
    || (whole != [] && if part[0] == whole[0] then IsSubsequence(part[1..], whole[1..]) else IsSubsequence(part, whole[1..]))
  }

  /** Exactly the elements to be kept, each as often as before and in the old order. */
  ghost predicate IsSelection<T(!new)>(before: seq<T>, after: seq<T>, keep: T -> bool)
  {
    && IsSubsequence(after, before)
    && forall x :: multiset(after)[x] == if keep(x) then multiset(before)[x] else 0
  }

  lemma SelectionOfNothing<T(!new)>(keep: T -> bool)
    ensures IsSelection([], [], keep)
  {
  }

  lemma SelectionKeeps<T(!new)>(x: T, before: seq<T>, after: seq<T>, keep: T -> bool)
    requires IsSelection(before, after, keep) && keep(x)
    ensures IsSelection([x] + before, [x] + after, keep)
  {
    assert ([x] + before)[1..] == before && ([x] + after)[1..] == after;
  }

  lemma SelectionDrops<T(!new)>(x: T, before: seq<T>, after: seq<T>, keep: T -> bool)
    requires IsSelection(before, after, keep) && !keep(x)
    ensures IsSelection([x] + before, after, keep)
  {
    assert ([x] + before)[1..] == before;
    if after != [] { assert after[0] in multiset(after); }
  }

  lemma SelectionHolds<T(!new)>(before: seq<T>, after: seq<T>, keep: T -> bool, x: T)
    requires IsSelection(before, after, keep)
    ensures x in after <==> x in before && keep(x)
  {
    assert x in after <==> x in multiset(after);
    assert x in before <==> x in multiset(before);
  }

  // ----- Removing repetitions -----

  /** Where `x` stands for the first time `y` has not been seen. */
  ghost predicate ComesFirst<T>(before: seq<T>, x: T, y: T)
  {
    exists p :: 0 <= p < |before| && before[p] == x && forall q :: 0 <= q <= p ==> before[q] != y
  }

  /** The elements that are not in `seen`, each once and in the order of first occurrence. */
  ghost predicate OnceInOrder<T(!new)>(before: seq<T>, after: seq<T>, seen: set<T>)
  {
    && (forall k, l :: 0 <= k < l < |after| ==> after[k] != after[l] && ComesFirst(before, after[k], after[l]))
    && (forall x :: x in after <==> x in before && x !in seen)
  }

  lemma OnceKeeps<T(!new)>(x: T, before: seq<T>, after: seq<T>, seen: set<T>)
    requires OnceInOrder(before, after, seen + {x}) && x !in seen
    ensures OnceInOrder([x] + before, [x] + after, seen)
  {
    var (xs, ys) := ([x] + before, [x] + after);
    forall y ensures y in ys <==> y in xs && y !in seen { assert y in ys <==> y == x || y in after; }
    forall k, l | 0 <= k < l < |ys| ensures ys[k] != ys[l] && ComesFirst(xs, ys[k], ys[l]) {
      assert ys[l] == after[l - 1] && ys[l] in after;
      if k == 0 {
        assert xs[0] == x;
      } else {
        assert ys[k] == after[k - 1];
        LaterInLonger(x, before, after[k - 1], after[l - 1]);
      }
    }
  }

  lemma LaterInLonger<T>(x: T, before: seq<T>, a: T, b: T)
    requires ComesFirst(before, a, b) && b != x
    ensures ComesFirst([x] + before, a, b)
  {
    var p :| 0 <= p < |before| && before[p] == a && forall q :: 0 <= q <= p ==> before[q] != b;
    assert ([x] + before)[p + 1] == a;
  }

  lemma OnceSkips<T(!new)>(x: T, before: seq<T>, after: seq<T>, seen: set<T>)
    requires OnceInOrder(before, after, seen) && x in seen
    ensures OnceInOrder([x] + before, after, seen)
  {
    forall k, l | 0 <= k < l < |after| ensures ComesFirst([x] + before, after[k], after[l]) {
      assert after[l] in after;
      LaterInLonger(x, before, after[k], after[l]);
    }
  }
}
