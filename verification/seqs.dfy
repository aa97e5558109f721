/** Order-preserving filtering of sequences, the shape of Swift's
    `filter`, `compactMap` and `for … where` loops. */
module Seqs {

  /** The elements of `s` that satisfy `p`, in their original order. */
  function Filter<T(==,!new)>(s: seq<T>, p: T -> bool): (r: seq<T>)
    ensures |r| <= |s|
    ensures forall x :: x in r <==> x in s && p(x)
    ensures forall k :: 0 <= k < |r| ==> p(r[k])
  {
    if |s| == 0 then []
    else
      assert s == [s[0]] + s[1..];
      (if p(s[0]) then [s[0]] else []) + Filter(s[1..], p)
  }

  /** Filtering keeps every copy of a passing element and no copy of any other. */
  lemma {:induction false} FilterCounts<T(!new)>(s: seq<T>, p: T -> bool)
    ensures forall x :: multiset(Filter(s, p))[x] == if p(x) then multiset(s)[x] else 0
    decreases |s|
  {
    if |s| > 0 {
      FilterCounts(s[1..], p);
      assert s == [s[0]] + s[1..];
    }
  }

  /** Filtering works piece by piece: the survivors of `a` come before those of `b`. */
  lemma {:induction false} FilterConcat<T(!new)>(a: seq<T>, b: seq<T>, p: T -> bool)
    ensures Filter(a + b, p) == Filter(a, p) + Filter(b, p)
    decreases |a|
  {
    if |a| == 0 {
      assert a + b == b;
    } else {
      assert (a + b)[1..] == a[1..] + b;
      FilterConcat(a[1..], b, p);
    }
  }

  /** A filter that every element passes is the identity. */
  lemma {:induction false} FilterKeepsAll<T(!new)>(s: seq<T>, p: T -> bool)
    requires forall k :: 0 <= k < |s| ==> p(s[k])
    ensures Filter(s, p) == s
    decreases |s|
  {
    if |s| > 0 {
      FilterKeepsAll(s[1..], p);
    }
  }

  /** A filter that no element passes leaves nothing. */
  lemma {:induction false} FilterDropsAll<T(!new)>(s: seq<T>, p: T -> bool)
    requires forall k :: 0 <= k < |s| ==> !p(s[k])
    ensures Filter(s, p) == []
    decreases |s|
  {
    if |s| > 0 {
      FilterDropsAll(s[1..], p);
    }
  }

  /** Filtering twice is filtering once by both conditions. */
  lemma {:induction false} FilterTwice<T(!new)>(s: seq<T>, p: T -> bool, q: T -> bool, both: T -> bool)
    requires forall x :: both(x) == (p(x) && q(x))
    ensures Filter(Filter(s, p), q) == Filter(s, both)
    decreases |s|
  {
    if |s| > 0 {
      FilterTwice(s[1..], p, q, both);
      var h := if p(s[0]) then [s[0]] else [];
      assert Filter(s, p) == h + Filter(s[1..], p);
      FilterConcat(h, Filter(s[1..], p), q);
      assert Filter(h, q) == if both(s[0]) then [s[0]] else [] by {
        if p(s[0]) {
          assert Filter(h, q) == (if q(s[0]) then [s[0]] else []) + Filter(h[1..], q);
          assert h[1..] == [];
        }
      }
    }
  }

  /** Only what a condition says about the elements present matters. */
  lemma {:induction false} FilterCongruent<T(!new)>(s: seq<T>, p: T -> bool, q: T -> bool)
    requires forall k :: 0 <= k < |s| ==> p(s[k]) == q(s[k])
    ensures Filter(s, p) == Filter(s, q)
    decreases |s|
  {
    if |s| > 0 {
      FilterCongruent(s[1..], p, q);
    }
  }

  function NotEqual<T(==)>(v: T): T -> bool {
    x => x != v
  }

  function NotIn<T(==)>(vs: seq<T>): T -> bool {
    x => x !in vs
  }

  function Negation<T>(p: T -> bool): T -> bool {
    x => !p(x)
  }

  /** Deleting a value deletes every copy of it and nothing else. */
  function Remove<T(==,!new)>(s: seq<T>, v: T): (r: seq<T>)
    ensures forall x :: x in r <==> x in s && x != v
  {
    Filter(s, NotEqual(v))
  }

  /** Deleting each value of `vs` in turn. */
  function RemoveEach<T(==,!new)>(s: seq<T>, vs: seq<T>): (r: seq<T>)
    decreases |vs|
  {
    if |vs| == 0 then s else RemoveEach(Remove(s, vs[0]), vs[1..])
  }

  lemma NotInFirstAndRest<T(!new)>(vs: seq<T>)
    requires |vs| > 0
    ensures forall x :: NotIn(vs)(x) == (NotEqual(vs[0])(x) && NotIn(vs[1..])(x))
  {
    assert vs == [vs[0]] + vs[1..];
  }

  /** Deleting the values of `vs` one by one keeps, in order, exactly the
      elements that are not among them. */
  lemma {:induction false} RemoveEachKeepsOthers<T(!new)>(s: seq<T>, vs: seq<T>)
    ensures RemoveEach(s, vs) == Filter(s, NotIn(vs))
    decreases |vs|
  {
    if |vs| == 0 {
      FilterKeepsAll(s, NotIn(vs));
    } else {
      var rest := Remove(s, vs[0]);
      RemoveEachKeepsOthers(rest, vs[1..]);
      assert RemoveEach(s, vs) == Filter(rest, NotIn(vs[1..]));
      NotInFirstAndRest(vs);
      FilterTwice(s, NotEqual(vs[0]), NotIn(vs[1..]), NotIn(vs));
    }
  }

  /** Deleting every element that satisfies `p` leaves those that do not. */
  lemma RemoveSelected<T(!new)>(s: seq<T>, p: T -> bool)
    ensures RemoveEach(s, Filter(s, p)) == Filter(s, Negation(p))
  {
    RemoveEachKeepsOthers(s, Filter(s, p));
    forall k | 0 <= k < |s|
      ensures NotIn(Filter(s, p))(s[k]) == Negation(p)(s[k])
    {
      assert s[k] in s;
    }
    FilterCongruent(s, NotIn(Filter(s, p)), Negation(p));
  }

  lemma ConcatAssoc<T>(a: seq<T>, b: seq<T>, c: seq<T>)
    ensures a + (b + c) == (a + b) + c
  {
  }

  /** The pieces one after another. */
  function Flatten<T>(cs: seq<seq<T>>): (r: seq<T>)
    decreases |cs|
  {
    if |cs| == 0 then [] else cs[0] + Flatten(cs[1..])
  }

  // ---------------------------------------------------------------------------
  // Deleting by position

  /** The positions of `s` from `i` on that `offsets` names. */
  function OffsetsFrom<T>(s: seq<T>, offsets: set<int>, i: nat): set<int> {
    set k | i <= k < |s| && k in offsets
  }

  /** `remove(atOffsets:)` from position `i` on: the elements whose positions
      `offsets` does not name, in their order. */
  function KeptFrom<T(==)>(s: seq<T>, offsets: set<int>, i: nat): (r: seq<T>)
    requires i <= |s|
    ensures forall k :: i <= k < |s| && k !in offsets ==> s[k] in r
    ensures forall x :: x in r ==> exists k :: i <= k < |s| && k !in offsets && s[k] == x
    decreases |s| - i
  {
    if i == |s| then []
    else (if i in offsets then [] else [s[i]]) + KeptFrom(s, offsets, i + 1)
  }

  function RemoveOffsets<T(==)>(s: seq<T>, offsets: set<int>): (r: seq<T>)
    ensures forall k :: 0 <= k < |s| && k !in offsets ==> s[k] in r
    ensures forall x :: x in r ==> exists k :: 0 <= k < |s| && k !in offsets && s[k] == x
  {
    KeptFrom(s, offsets, 0)
  }

  /** One element goes for each position named, and no more. */
  lemma {:induction false} KeptFromLength<T>(s: seq<T>, offsets: set<int>, i: nat)
    requires i <= |s|
    ensures |KeptFrom(s, offsets, i)| + |OffsetsFrom(s, offsets, i)| == |s| - i
    decreases |s| - i
  {
    if i == |s| {
      assert OffsetsFrom(s, offsets, i) == {};
    } else {
      KeptFromLength(s, offsets, i + 1);
      var later := OffsetsFrom(s, offsets, i + 1);
      assert i !in later;
      if i in offsets {
        assert OffsetsFrom(s, offsets, i) == later + {i};
      } else {
        assert OffsetsFrom(s, offsets, i) == later;
      }
    }
  }

  /** `remove(atOffsets:)` shortens the sequence by the number of its
      positions named. */
  lemma RemoveOffsetsLength<T>(s: seq<T>, offsets: set<int>)
    ensures |RemoveOffsets(s, offsets)| == |s| - |set k | 0 <= k < |s| && k in offsets|
  {
    KeptFromLength(s, offsets, 0);
  }

  /** Naming no position of the sequence removes nothing. */
  lemma {:induction false} KeptFromNone<T>(s: seq<T>, offsets: set<int>, i: nat)
    requires i <= |s|
    requires forall k :: i <= k < |s| ==> k !in offsets
    ensures KeptFrom(s, offsets, i) == s[i..]
    decreases |s| - i
  {
    if i < |s| {
      KeptFromNone(s, offsets, i + 1);
      assert s[i..] == [s[i]] + s[i + 1..];
    }
  }

  /** Removing from a sequence with one more element at the end removes the
      same elements in front of it, then keeps or drops the new one. */
  lemma {:induction false} KeptFromSnoc<T>(s: seq<T>, x: T, offsets: set<int>, i: nat)
    requires i <= |s|
    ensures KeptFrom(s + [x], offsets, i) == KeptFrom(s, offsets, i) + (if |s| in offsets then [] else [x])
    decreases |s| - i
  {
    if i == |s| {
      assert KeptFrom(s + [x], offsets, i + 1) == [];
    } else {
      KeptFromSnoc(s, x, offsets, i + 1);
      assert (s + [x])[i] == s[i];
    }
  }

  /** `remove(atOffsets:)` keeps the order: the survivors of `s + [x]` are
      those of `s`, followed by `x` unless its position is named. */
  lemma RemoveOffsetsSnoc<T>(s: seq<T>, x: T, offsets: set<int>)
    ensures RemoveOffsets(s + [x], offsets) == RemoveOffsets(s, offsets) + (if |s| in offsets then [] else [x])
  {
    KeptFromSnoc(s, x, offsets, 0);
  }

  /** Naming only the last position removes the last element. */
  lemma {:induction false} KeptFromDropLast<T>(s: seq<T>, x: T, i: nat)
    requires i <= |s|
    ensures KeptFrom(s + [x], {|s|}, i) == s[i..]
    decreases |s| - i
  {
    if i == |s| {
      assert KeptFrom(s + [x], {|s|}, i + 1) == [];
    } else {
      KeptFromDropLast(s, x, i + 1);
      assert (s + [x])[i] == s[i];
      assert s[i..] == [s[i]] + s[i + 1..];
    }
  }
}
