/**
 The list operations the engine's registries perform on their vectors: the
 linear search of `std::find`, the single `erase` that follows it, and the
 in-place compaction of `std::remove`, with and without the `erase` of the
 tail that the erase-remove idiom adds.
 */
module Sequences {

  /** Position of the first occurrence of `x` in `s`, or `|s|` when there is none. */
  function IndexOf<T(==)>(s: seq<T>, x: T): (i: nat)
    ensures i <= |s|
    ensures i < |s| ==> s[i] == x
    ensures forall j :: 0 <= j < i ==> s[j] != x
    ensures i == |s| <==> x !in s
  {
    if s == [] then 0
    else if s[0] == x then 0
    else 1 + IndexOf(s[1..], x)
  }

  /** The loop of `std::find`: scans from the front and stops at the first match. */
  method Find<T(==)>(s: seq<T>, x: T) returns (i: nat)
    ensures i == IndexOf(s, x)
  {
    i := 0;
    while i < |s| && s[i] != x
      invariant i <= |s|
      invariant forall j :: 0 <= j < i ==> s[j] != x
    {
      i := i + 1;
    }
  }

  /** `s` with its first occurrence of `x` erased; `s` itself when `x` does not occur. */
  function RemoveFirst<T(==)>(s: seq<T>, x: T): (r: seq<T>)
    ensures x !in s ==> r == s
    ensures x in s ==> |r| == |s| - 1
  {
    var i := IndexOf(s, x);
    if i == |s| then s else s[..i] + s[i+1..]
  }

  /** Erasing the first match takes exactly one copy of `x` out, and nothing else. */
  lemma RemoveFirstMultiset<T>(s: seq<T>, x: T)
    ensures multiset(RemoveFirst(s, x)) == multiset(s) - multiset{x}
  {
    var i := IndexOf(s, x);
    if i == |s| {
      assert multiset(s)[x] == 0;
    } else {
      assert s == s[..i] + [x] + s[i+1..];
    }
  }

  /** Erasing the first match removes exactly one element, at the first matching position. */
  lemma RemoveFirstErasesFirstMatch<T>(s: seq<T>, x: T)
    requires x in s
    ensures exists i :: 0 <= i < |s| && s[i] == x && x !in s[..i] &&
                        RemoveFirst(s, x) == s[..i] + s[i+1..]
  {
    var i := IndexOf(s, x);
    assert x !in s[..i];
  }

  /** When `x` occurs, the list is its part before the first match, the match, and the rest; the erase drops the match. */
  lemma RemoveFirstSplit<T>(s: seq<T>, x: T)
    requires x in s
    ensures var i := IndexOf(s, x);
      s == s[..i] + [x] + s[i+1..] && RemoveFirst(s, x) == s[..i] + s[i+1..]
  {
    var i := IndexOf(s, x);
    assert s == s[..i] + [x] + s[i+1..];
  }

  /** Erasing what was just appended, when it was not there before, gives the list back. */
  lemma RemoveFirstAfterAppend<T>(s: seq<T>, x: T)
    requires x !in s
    ensures RemoveFirst(s + [x], x) == s
  {
    var t := s + [x];
    var i := IndexOf(t, x);
    assert i == |s|;
    assert t[..i] == s;
    assert t[i+1..] == [];
  }

  /** `s` with every occurrence of `x` taken out; the others keep their order. */
  function Filter<T(==)>(s: seq<T>, x: T): (r: seq<T>)
    ensures |r| <= |s|
  {
    if s == [] then []
    else Filter(s[..|s| - 1], x) + (if s[|s| - 1] == x then [] else [s[|s| - 1]])
  }

  /**
   Filtering keeps every other element exactly as often as it occurred and no
   copy of `x`, so it shortens the list by the number of copies of `x`.
   */
  lemma {:induction false} FilterMultiset<T>(s: seq<T>, x: T)
    ensures multiset(Filter(s, x)) == multiset(s)[x := 0]
    ensures x !in Filter(s, x)
    ensures |Filter(s, x)| == |s| - multiset(s)[x]
  {
    if s != [] {
      var init, last := s[..|s| - 1], s[|s| - 1];
      assert s == init + [last];
      FilterMultiset(init, x);
    }
  }

  /**
   The state `std::remove` leaves in `s` once positions `j..` remain to be
   scanned and the next kept element is to be copied to position `w`.
   */
  function Compact<T(==)>(s: seq<T>, x: T, j: nat, w: nat): (r: seq<T>)
    requires w <= j <= |s|
    ensures |r| == |s|
    ensures r[..w] == s[..w]
    decreases |s| - j
  {
    if j == |s| then s
    else if s[j] != x then Compact(s[w := s[j]], x, j + 1, w + 1)
    else Compact(s, x, j + 1, w)
  }

  /** Scanning one more position extends the filtered prefix by that element unless it matches. */
  lemma FilterPrefixStep<T>(s: seq<T>, j: nat, x: T)
    requires j < |s|
    ensures Filter(s[..j + 1], x) == Filter(s[..j], x) + (if s[j] == x then [] else [s[j]])
  {
    assert s[..j + 1][..j] == s[..j];
  }

  /**
   While it scans, `std::remove` holds the kept elements of the part already
   scanned in front and has not yet written at or past the write position.
   */
  lemma {:induction false} CompactSpec<T>(orig: seq<T>, s: seq<T>, x: T, j: nat, w: nat)
    requires |s| == |orig| && w <= j <= |s|
    requires s[..w] == Filter(orig[..j], x)
    requires s[w..] == orig[w..]
    ensures Compact(s, x, j, w) == Filter(orig, x) + orig[|Filter(orig, x)|..]
    decreases |s| - j
  {
    if j == |s| {
      CompactDone(orig, s, x, w);
    } else if s[j] != x {
      KeepStep(orig, s, x, j, w);
      CompactSpec(orig, s[w := s[j]], x, j + 1, w + 1);
    } else {
      SkipStep(orig, s, x, j, w);
      CompactSpec(orig, s, x, j + 1, w);
    }
  }

  /** Once everything is scanned the kept elements fill the front and the tail is untouched. */
  lemma CompactDone<T>(orig: seq<T>, s: seq<T>, x: T, w: nat)
    requires |s| == |orig| && w <= |s|
    requires s[..w] == Filter(orig[..|s|], x)
    requires s[w..] == orig[w..]
    ensures s == Filter(orig, x) + orig[|Filter(orig, x)|..]
  {
    assert orig[..|s|] == orig;
    assert s == s[..w] + s[w..];
  }

  /** Skipping a match leaves the write position and the filtered prefix as they were. */
  lemma SkipStep<T>(orig: seq<T>, s: seq<T>, x: T, j: nat, w: nat)
    requires |s| == |orig| && w <= j < |s|
    requires s[..w] == Filter(orig[..j], x)
    requires s[w..] == orig[w..]
    requires s[j] == x
    ensures s[..w] == Filter(orig[..j + 1], x)
  {
    assert orig[j] == x by { assert s[j] == s[w..][j - w]; }
    FilterPrefixStep(orig, j, x);
  }

  /** Copying a kept element to the write position preserves the scan's invariant. */
  lemma KeepStep<T>(orig: seq<T>, s: seq<T>, x: T, j: nat, w: nat)
    requires |s| == |orig| && w <= j < |s|
    requires s[..w] == Filter(orig[..j], x)
    requires s[w..] == orig[w..]
    requires s[j] != x
    ensures s[w := s[j]][..w + 1] == Filter(orig[..j + 1], x)
    ensures s[w := s[j]][w + 1..] == orig[w + 1..]
  {
    assert s[j] == orig[j] by { assert s[j] == s[w..][j - w]; }
    FilterPrefixStep(orig, j, x);
    var s' := s[w := s[j]];
    assert s'[..w + 1] == s[..w] + [orig[j]];
    forall k | w + 1 <= k < |s|
      ensures s'[k] == orig[k]
    {
      assert s[k] == s[w..][k - w];
    }
  }

  /** What `std::remove(v.begin(), v.end(), x)` leaves in `v`; the length never changes. */
  function StdRemove<T(==)>(s: seq<T>, x: T): (r: seq<T>)
    ensures |r| == |s|
  {
    CompactSpec(s, s, x, 0, 0);
    Compact(s, x, 0, 0)
  }

  /**
   After `std::remove` the kept elements come first, in their original order,
   and the trailing positions, one per removed match, still hold what they held.
   */
  lemma StdRemoveSpec<T>(s: seq<T>, x: T)
    ensures StdRemove(s, x)[..|s| - multiset(s)[x]] == Filter(s, x)
    ensures StdRemove(s, x)[|s| - multiset(s)[x]..] == s[|s| - multiset(s)[x]..]
  {
    FilterMultiset(s, x);
    CompactSpec(s, s, x, 0, 0);
  }

  /** The erase-remove idiom: `std::remove`, then erase from the iterator it returns to the end. */
  function EraseRemove<T(==)>(s: seq<T>, x: T): (r: seq<T>)
    ensures r == Filter(s, x)
    ensures x !in r
    ensures multiset(r) == multiset(s)[x := 0]
  {
    FilterMultiset(s, x);
    StdRemoveSpec(s, x);
    StdRemove(s, x)[..|s| - multiset(s)[x]]
  }

  /** Without the erase, a match in the last position survives `std::remove`. */
  lemma StdRemoveKeepsTrailingMatch<T>(a: T, x: T)
    requires a != x
    ensures StdRemove([a, x], x) == [a, x]
    ensures x in StdRemove([a, x], x)
  {
    var s := [a, x];
    assert multiset(s)[x] == 1;
    assert s[..1] == [a];
    assert [a][..0] == [];
    assert Filter([a], x) == [a];
    assert Filter(s, x) == [a];
    StdRemoveSpec(s, x);
    var r := StdRemove(s, x);
    assert r[..1] == [a] && r[1..] == [x];
    assert r == r[..1] + r[1..];
  }

  /**
   Without the erase, a match in front is overwritten by the element after it,
   which then occurs twice.
   */
  lemma StdRemoveDuplicatesSurvivor<T>(x: T, a: T)
    requires a != x
    ensures StdRemove([x, a], x) == [a, a]
  {
    var s := [x, a];
    assert multiset(s)[x] == 1;
    assert s[..1] == [x];
    assert [x][..0] == [];
    assert Filter([x], x) == [];
    assert Filter(s, x) == [a];
    StdRemoveSpec(s, x);
    var r := StdRemove(s, x);
    assert r[..1] == [a] && r[1..] == [a];
    assert r == r[..1] + r[1..];
  }
}
