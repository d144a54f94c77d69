/** The shape-collapsing pass of depsize: `for ii in actual: if ii in other:
    actual.remove(ii)`, a loop over a Python list that removes from that same
    list by value. The list iterator walks by position, so the element after
    each removal slides into the slot already visited and is never examined. */
module DependShapes {
  import opened Cdf

  /** `list.remove(x)`: deletes the first element equal to x. */
  function RemoveFirst(a: seq<nat>, x: nat): (r: seq<nat>)
    requires x in a
    ensures |r| == |a| - 1
  {
    if a[0] == x then a[1..] else [a[0]] + RemoveFirst(a[1..], x)
  }

  /** The pass, continued from iterator position k. */
  function PassFrom(a: seq<nat>, k: nat, other: seq<nat>): seq<nat>
    decreases |a| + 1 - k
  {
    if k >= |a| then a
    else if a[k] in other then PassFrom(RemoveFirst(a, a[k]), k + 1, other)
    else PassFrom(a, k + 1, other)
  }

  /** The list left after one pass over `shape` against `other`. */
  function RemovalPass(shape: seq<nat>, other: seq<nat>): seq<nat> {
    PassFrom(shape, 0, other)
  }

  /** depsize's loop, step by step: the iterator index advances before the
      element is removed, exactly as Python's list iterator does. */
  method RemoveShared(shape: seq<nat>, other: seq<nat>) returns (actual: seq<nat>)
    ensures actual == RemovalPass(shape, other)
  {
    actual := shape;
    var k := 0;
    while k < |actual|
      invariant k <= |actual| + 1
      invariant PassFrom(actual, k, other) == RemovalPass(shape, other)
      decreases |actual| + 1 - k
    {
      var ii := actual[k];
      k := k + 1;
      if ii in other {
        actual := RemoveFirst(actual, ii);
      }
    }
  }

  /** Reference definition by position: an element found in `other` is
      dropped and its successor is kept unexamined. */
  function SkipFilter(a: seq<nat>, other: seq<nat>): (r: seq<nat>)
    ensures |r| <= |a|
  {
    if a == [] then []
    else if a[0] in other then (if |a| == 1 then [] else [a[1]] + SkipFilter(a[2..], other))
    else [a[0]] + SkipFilter(a[1..], other)
  }

  /** Removing a value whose first occurrence is at k removes position k. */
  lemma {:induction false} RemoveFirstAt(a: seq<nat>, k: nat)
    requires k < |a| && a[k] !in a[..k]
    ensures RemoveFirst(a, a[k]) == a[..k] + a[k + 1..]
  {
    if a[0] != a[k] {
      var t := a[1..];
      assert a[k] == t[k - 1] && t[..k - 1] == a[1..k] && t[k..] == a[k + 1..];
      assert a[..k] == [a[0]] + a[1..k];
      calc {
        RemoveFirst(a, a[k]);
        [a[0]] + RemoveFirst(t, t[k - 1]);
        { RemoveFirstAt(t, k - 1); }
        [a[0]] + (a[1..k] + a[k + 1..]);
        a[..k] + a[k + 1..];
      }
    }
  }

  /** `list.remove(x)` takes exactly one copy of x out of the list. */
  lemma {:induction false} RemoveFirstMultiset(a: seq<nat>, x: nat)
    requires x in a
    ensures multiset(RemoveFirst(a, x)) == multiset(a) - multiset{x}
  {
    assert a == [a[0]] + a[1..];
    if a[0] != x {
      RemoveFirstMultiset(a[1..], x);
    }
  }

  /** Removing a[k] leaves everything after position k where it was, one
      slot to the left. */
  lemma {:induction false} RemoveFirstTail(a: seq<nat>, k: nat)
    requires k < |a|
    ensures RemoveFirst(a, a[k])[k..] == a[k + 1..]
  {
    if a[0] != a[k] {
      assert a[k] == a[1..][k - 1];
      RemoveFirstTail(a[1..], k - 1);
      assert RemoveFirst(a, a[k]) == [a[0]] + RemoveFirst(a[1..], a[k]);
    }
  }

  /** Removing a[k] (wherever its first occurrence is) leaves the tail after
      k in place and takes one copy of a[k] out of the prefix. */
  lemma RemoveFirstShift(a: seq<nat>, k: nat)
    requires k < |a|
    ensures RemoveFirst(a, a[k])[k..] == a[k + 1..]
    ensures multiset(RemoveFirst(a, a[k])[..k]) == multiset(a[..k + 1]) - multiset{a[k]}
  {
    var b := RemoveFirst(a, a[k]);
    RemoveFirstTail(a, k);
    RemoveFirstMultiset(a, a[k]);
    ShiftAlgebra(a, b, k);
  }

  lemma ShiftAlgebra(a: seq<nat>, b: seq<nat>, k: nat)
    requires k < |a| && |b| == |a| - 1 && b[k..] == a[k + 1..]
    requires multiset(b) == multiset(a) - multiset{a[k]}
    ensures multiset(b[..k]) == multiset(a[..k + 1]) - multiset{a[k]}
  {
    assert b == b[..k] + a[k + 1..];
    assert a == a[..k] + [a[k]] + a[k + 1..];
    assert a[..k + 1] == a[..k] + [a[k]];
    SplitRemove(b[..k], a[..k], a[k], a[k + 1..]);
  }

  lemma SplitRemove(q: seq<nat>, p: seq<nat>, x: nat, t: seq<nat>)
    requires multiset(q + t) == multiset(p + [x] + t) - multiset{x}
    ensures multiset(q) == multiset(p + [x]) - multiset{x}
  {
    var mq, mp, mt := multiset(q), multiset(p), multiset(t);
    assert multiset(q + t) == mq + mt;
    assert multiset(p + [x] + t) == mp + multiset{x} + mt;
    assert mp + multiset{x} + mt - multiset{x} == mp + mt;
    forall y ensures mq[y] == mp[y] {
      assert (mq + mt)[y] == (mp + mt)[y];
    }
    assert mq == mp;
    assert multiset(p + [x]) - multiset{x} == mp;
  }

  /** One step of the reference definition at position k. */
  lemma SkipStep(a: seq<nat>, k: nat, other: seq<nat>)
    requires k < |a|
    ensures a[k] !in other ==> SkipFilter(a[k..], other) == [a[k]] + SkipFilter(a[k + 1..], other)
    ensures a[k] in other && k + 1 < |a| ==>
      SkipFilter(a[k..], other) == [a[k + 1]] + SkipFilter(a[k + 2..], other)
    ensures a[k] in other && k + 1 == |a| ==> SkipFilter(a[k..], other) == []
  {
    assert a[k..][1..] == a[k + 1..];
    if k + 1 < |a| {
      assert a[k..][2..] == a[k + 2..];
    }
  }

  lemma {:induction false} PassFromMultiset(a: seq<nat>, k: nat, other: seq<nat>)
    requires k <= |a|
    ensures multiset(PassFrom(a, k, other)) == multiset(a[..k]) + multiset(SkipFilter(a[k..], other))
    decreases |a| - k, 1
  {
    if k == |a| {
      assert a[..k] == a;
    } else if a[k] !in other {
      KeptMultiset(a, k, other);
    } else if k + 1 < |a| {
      SkipStep(a, k, other);
      ShiftedPass(a, k, other);
    } else {
      LastRemovedMultiset(a, k, other);
    }
  }

  /** The keeping step of PassFromMultiset. */
  lemma {:induction false} KeptMultiset(a: seq<nat>, k: nat, other: seq<nat>)
    requires k < |a| && a[k] !in other
    ensures multiset(PassFrom(a, k, other)) == multiset(a[..k]) + multiset(SkipFilter(a[k..], other))
    decreases |a| - k, 0
  {
    SkipStep(a, k, other);
    PassFromMultiset(a, k + 1, other);
    assert a[..k + 1] == a[..k] + [a[k]];
    assert multiset(a[..k + 1]) == multiset(a[..k]) + multiset{a[k]};
  }

  /** Removing the last element ends the pass. */
  lemma LastRemovedMultiset(a: seq<nat>, k: nat, other: seq<nat>)
    requires k + 1 == |a| && a[k] in other
    ensures multiset(PassFrom(a, k, other)) == multiset(a[..k]) + multiset(SkipFilter(a[k..], other))
  {
    var b := RemoveFirst(a, a[k]);
    SkipStep(a, k, other);
    RemoveFirstShift(a, k);
    assert a[..k + 1] == a[..k] + [a[k]];
    assert b[..k] == b;
    assert PassFrom(a, k, other) == PassFrom(b, k + 1, other) == b;
  }

  /** The removing step of PassFromMultiset, when a successor exists. */
  lemma {:induction false} ShiftedPass(a: seq<nat>, k: nat, other: seq<nat>)
    requires k + 1 < |a| && a[k] in other
    ensures multiset(PassFrom(a, k, other)) ==
      multiset(a[..k]) + multiset([a[k + 1]] + SkipFilter(a[k + 2..], other))
    decreases |a| - k, 0
  {
    var b := RemoveFirst(a, a[k]);
    assert PassFrom(a, k, other) == PassFrom(b, k + 1, other);
    PassFromMultiset(b, k + 1, other);
    RemoveFirstShift(a, k);
    RemovedPrefix(a, b, k);
  }

  /** A list b that agrees with a after k+1 and holds a's prefix up to k+1
      less one a[k] in its first k slots: its first k+1 slots hold a's first k
      and a[k+1]. */
  lemma RemovedPrefix(a: seq<nat>, b: seq<nat>, k: nat)
    requires k + 1 < |a| && |b| == |a| - 1
    requires b[k..] == a[k + 1..]
    requires multiset(b[..k]) == multiset(a[..k + 1]) - multiset{a[k]}
    ensures multiset(b[..k + 1]) == multiset(a[..k]) + multiset{a[k + 1]}
    ensures b[k + 1..] == a[k + 2..]
  {
    assert b[k] == a[k + 1];
    assert b[..k + 1] == b[..k] + [a[k + 1]];
    assert a[..k + 1] == a[..k] + [a[k]];
    PrefixAlgebra(a[..k], a[k], a[k + 1], b[..k]);
  }

  lemma PrefixAlgebra(p: seq<nat>, x: nat, y: nat, q: seq<nat>)
    requires multiset(q) == multiset(p + [x]) - multiset{x}
    ensures multiset(q + [y]) == multiset(p) + multiset{y}
  {
    assert multiset(p + [x]) == multiset(p) + multiset{x};
  }

  lemma {:induction false} PassFromDistinct(a: seq<nat>, k: nat, other: seq<nat>)
    requires k <= |a| && Distinct(a)
    ensures PassFrom(a, k, other) == a[..k] + SkipFilter(a[k..], other)
    decreases |a| - k, 1
  {
    if k == |a| {
      assert a[..k] == a;
    } else if a[k] !in other {
      KeptDistinct(a, k, other);
    } else if k + 1 < |a| {
      SkipStep(a, k, other);
      RemoveFirstAt(a, k);
      DistinctShiftedPass(a, k, other);
    } else {
      SkipStep(a, k, other);
      RemoveFirstAt(a, k);
      assert a[..k] + a[k + 1..] == a[..k];
    }
  }

  /** The keeping step of PassFromDistinct. */
  lemma {:induction false} KeptDistinct(a: seq<nat>, k: nat, other: seq<nat>)
    requires k < |a| && Distinct(a) && a[k] !in other
    ensures PassFrom(a, k, other) == a[..k] + SkipFilter(a[k..], other)
    decreases |a| - k, 0
  {
    SkipStep(a, k, other);
    PassFromDistinct(a, k + 1, other);
    assert a[..k + 1] == a[..k] + [a[k]];
  }

  lemma {:induction false} DistinctShiftedPass(a: seq<nat>, k: nat, other: seq<nat>)
    requires k + 1 < |a| && a[k] in other && Distinct(a)
    requires RemoveFirst(a, a[k]) == a[..k] + a[k + 1..]
    ensures PassFrom(a, k, other) == a[..k] + ([a[k + 1]] + SkipFilter(a[k + 2..], other))
    decreases |a| - k, 0
  {
    var b := a[..k] + a[k + 1..];
    DistinctWithout(a, k);
    ShiftedSlices(a, k);
    var tail := SkipFilter(a[k + 2..], other);
    calc {
      PassFrom(a, k, other);
      PassFrom(b, k + 1, other);
      { PassFromDistinct(b, k + 1, other); }
      b[..k + 1] + SkipFilter(b[k + 1..], other);
      (a[..k] + [a[k + 1]]) + tail;
      a[..k] + ([a[k + 1]] + tail);
    }
  }

  /** The slices of a with position k dropped. */
  lemma ShiftedSlices(a: seq<nat>, k: nat)
    requires k + 1 < |a|
    ensures (a[..k] + a[k + 1..])[..k + 1] == a[..k] + [a[k + 1]]
    ensures (a[..k] + a[k + 1..])[k + 1..] == a[k + 2..]
  {
  }

  /** Dropping one position keeps a list free of repeats. */
  lemma DistinctWithout(a: seq<nat>, k: nat)
    requires k < |a| && Distinct(a)
    ensures Distinct(a[..k] + a[k + 1..])
  {
    var b := a[..k] + a[k + 1..];
    forall i, j | 0 <= i < j < |b| ensures b[i] != b[j] {
      var i' := if i < k then i else i + 1;
      var j' := if j < k then j else j + 1;
      assert b[i] == a[i'] && b[j] == a[j'];
    }
  }

  /** The pass keeps the same values as the positional reference, in
      general up to order. */
  lemma RemovalPassMultiset(shape: seq<nat>, other: seq<nat>)
    ensures multiset(RemovalPass(shape, other)) == multiset(SkipFilter(shape, other))
    ensures |RemovalPass(shape, other)| == |SkipFilter(shape, other)| <= |shape|
  {
    PassFromMultiset(shape, 0, other);
    assert shape[..0] == [] && shape[0..] == shape;
    assert |RemovalPass(shape, other)| == |multiset(RemovalPass(shape, other))|;
  }

  /** Without repeated sizes the pass is exactly the positional reference. */
  lemma RemovalPassDistinct(shape: seq<nat>, other: seq<nat>)
    requires Distinct(shape)
    ensures RemovalPass(shape, other) == SkipFilter(shape, other)
  {
    PassFromDistinct(shape, 0, other);
    assert shape[..0] == [] && shape[0..] == shape;
  }

  /** The pass removes only sizes that occur in `other`, and leaves a shape
      that shares nothing with `other` untouched. */
  lemma RemovalPassUntouched(shape: seq<nat>, other: seq<nat>)
    requires forall i :: 0 <= i < |shape| ==> shape[i] !in other
    ensures RemovalPass(shape, other) == shape
  {
    PassUntouched(shape, 0, other);
  }

  lemma {:induction false} PassUntouched(a: seq<nat>, k: nat, other: seq<nat>)
    requires forall i :: 0 <= i < |a| ==> a[i] !in other
    ensures PassFrom(a, k, other) == a
    decreases |a| + 1 - k
  {
    if k < |a| {
      PassUntouched(a, k + 1, other);
    }
  }

  /** counts [80,48] against look [80] leave [48]; [80,80,48] leaves
      [80,48]; and [80,81] against [80,81] leaves [81], since 81 slides
      into the visited slot. */
  lemma RemovalExamples()
    ensures RemovalPass([80, 48], [80]) == [48]
    ensures RemovalPass([80, 80, 48], [80]) == [80, 48]
    ensures RemovalPass([80, 81], [80, 81]) == [81]
  {
    assert RemoveFirst([80, 48], 80) == [48];
    assert PassFrom([48], 1, [80]) == [48];
    assert RemoveFirst([80, 80, 48], 80) == [80, 48];
    assert PassFrom([80, 48], 1, [80]) == [80, 48];
    assert RemoveFirst([80, 81], 80) == [81];
    assert PassFrom([81], 1, [80, 81]) == [81];
  }

  /** With a repeated size the order can differ from the reference: [1,2,3,2]
      against [1,2] leaves [3,2], the reference gives [2,3]. */
  lemma RemovalOrderExample()
    ensures RemovalPass([1, 2, 3, 2], [1, 2]) == [3, 2]
    ensures SkipFilter([1, 2, 3, 2], [1, 2]) == [2, 3]
  {
    assert RemoveFirst([1, 2, 3, 2], 1) == [2, 3, 2];
    assert RemoveFirst([2, 3, 2], 2) == [3, 2];
    assert PassFrom([2, 3, 2], 1, [1, 2]) == PassFrom([2, 3, 2], 2, [1, 2]);
    assert PassFrom([3, 2], 3, [1, 2]) == [3, 2];
    assert [1, 2, 3, 2][2..] == [3, 2];
    assert [3, 2][1..] == [2];
  }

  /** The sizes of a that do not occur in other, in order. */
  function Without(a: seq<nat>, other: seq<nat>): (r: seq<nat>)
    ensures forall x :: x in r <==> x in a && x !in other
  {
    if a == [] then []
    else if a[0] in other then Without(a[1..], other)
    else [a[0]] + Without(a[1..], other)
  }

  /** Filtering keeps a list of distinct sizes distinct. */
  lemma {:induction false} WithoutDistinct(a: seq<nat>, other: seq<nat>)
    requires Distinct(a)
    ensures Distinct(Without(a, other))
  {
    if a != [] {
      var rest := a[1..];
      assert Distinct(rest) by {
        forall i, j | 0 <= i < j < |rest| ensures rest[i] != rest[j] {
          assert rest[i] == a[i + 1] && rest[j] == a[j + 1];
        }
      }
      WithoutDistinct(rest, other);
      if a[0] !in other {
        assert a[0] !in rest by {
          forall j | 0 <= j < |rest| ensures rest[j] != a[0] {
            assert rest[j] == a[j + 1];
          }
        }
        var w := Without(rest, other);
        assert a[0] !in w;
        assert forall j :: 0 < j < |[a[0]] + w| ==> ([a[0]] + w)[j] == w[j - 1];
      }
    }
  }

  /** No shared size is directly followed by another shared size. */
  predicate NoAdjacentShared(a: seq<nat>, other: seq<nat>) {
    forall k :: 0 <= k < |a| - 1 && a[k] in other ==> a[k + 1] !in other
  }

  /** Then the positional reference is the plain filter. */
  lemma {:induction false} SkipFilterIsFilter(a: seq<nat>, other: seq<nat>)
    requires NoAdjacentShared(a, other)
    ensures SkipFilter(a, other) == Without(a, other)
  {
    if a != [] {
      if a[0] in other && |a| > 1 {
        assert a[1] !in other;
        assert NoAdjacentShared(a[2..], other) by {
          forall k | 0 <= k < |a[2..]| - 1 && a[2..][k] in other ensures a[2..][k + 1] !in other {
            assert a[2..][k] == a[k + 2] && a[2..][k + 1] == a[k + 3];
          }
        }
        SkipFilterIsFilter(a[2..], other);
        assert a[1..][1..] == a[2..];
      } else if a[0] !in other {
        assert NoAdjacentShared(a[1..], other) by {
          forall k | 0 <= k < |a[1..]| - 1 && a[1..][k] in other ensures a[1..][k + 1] !in other {
            assert a[1..][k] == a[k + 1] && a[1..][k + 1] == a[k + 2];
          }
        }
        SkipFilterIsFilter(a[1..], other);
      }
    }
  }

  /** So a pass over distinct sizes removes exactly the shared sizes unless
      two of them are adjacent; an adjacent pair of shared sizes keeps its
      second member. */
  lemma RemovalPassFilters(shape: seq<nat>, other: seq<nat>)
    requires Distinct(shape) && NoAdjacentShared(shape, other)
    ensures RemovalPass(shape, other) == Without(shape, other)
  {
    RemovalPassDistinct(shape, other);
    SkipFilterIsFilter(shape, other);
  }

  lemma AdjacentSharedKept()
    ensures RemovalPass([80, 81, 48], [80, 81]) == [81, 48]
    ensures Without([80, 81, 48], [80, 81]) == [48]
  {
    assert RemoveFirst([80, 81, 48], 80) == [81, 48];
    assert PassFrom([81, 48], 1, [80, 81]) == PassFrom([81, 48], 2, [80, 81]);
  }
}
