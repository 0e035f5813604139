/** The one computation of the shared library: counting equal elements. */
module Lib {

  /** `count_occurrences(list, eq)`: how many elements of `list` equal `e`. */
  function CountOccurrences<T(==)>(list: seq<T>, e: T): (r: nat)
    ensures r <= |list|
    ensures r == 0 <==> e !in list
  {
    if list == [] then 0 else (if list[0] == e then 1 else 0) + CountOccurrences(list[1..], e)
  }

  /** The indices of `list` that hold `e`. */
  function IndicesOf<T(==)>(list: seq<T>, e: T): set<nat> {
    set i: nat | i < |list| && list[i] == e
  }

  /** Counting distributes over concatenation. */
  lemma {:induction false} CountAppend<T>(a: seq<T>, b: seq<T>, e: T)
    ensures CountOccurrences(a + b, e) == CountOccurrences(a, e) + CountOccurrences(b, e)
  {
    if a == [] {
      assert a + b == b;
    } else {
      assert (a + b)[1..] == a[1..] + b;
      CountAppend(a[1..], b, e);
    }
  }

  /** The count is the number of indices whose element equals `e`. */
  lemma {:induction false} CountIsIndexCount<T>(list: seq<T>, e: T)
    ensures CountOccurrences(list, e) == |IndicesOf(list, e)|
  {
    if list != [] {
      var n := |list| - 1;
      var front := list[..n];
      assert list == front + [list[n]];
      CountIsIndexCount(front, e);
      CountAppend(front, [list[n]], e);
      assert CountOccurrences([list[n]], e) == if list[n] == e then 1 else 0;
      if list[n] == e {
        assert IndicesOf(list, e) == IndicesOf(front, e) + {n};
      } else {
        assert IndicesOf(list, e) == IndicesOf(front, e);
      }
    }
  }

  /** The count is the multiplicity of `e` in the multiset of `list`. */
  lemma {:induction false} CountIsMultiplicity<T>(list: seq<T>, e: T)
    ensures CountOccurrences(list, e) == multiset(list)[e]
  {
    if list != [] {
      assert list == [list[0]] + list[1..];
      CountIsMultiplicity(list[1..], e);
    }
  }

  /** Reordering a list does not change any count. */
  lemma CountPermutation<T>(a: seq<T>, b: seq<T>, e: T)
    requires multiset(a) == multiset(b)
    ensures CountOccurrences(a, e) == CountOccurrences(b, e)
  {
    CountIsMultiplicity(a, e);
    CountIsMultiplicity(b, e);
  }

  /** Counting over a list with a known first element. */
  lemma CountCons<T>(h: T, t: seq<T>, e: T)
    ensures CountOccurrences([h] + t, e) == (if h == e then 1 else 0) + CountOccurrences(t, e)
  {
    assert ([h] + t)[1..] == t;
  }

  /** The second test list, written as a chain of single-element prefixes. */
  lemma GoldenListShape(list2: seq<int>)
    requires list2 == [4, 3, 5, 3, 9, 3]
    ensures list2 == [4] + ([3] + ([5] + ([3] + ([9] + [3]))))
  {
  }

  /** The counts of the second test list, one element at a time. */
  lemma GoldenCounts(list2: seq<int>)
    requires list2 == [4] + ([3] + ([5] + ([3] + ([9] + [3]))))
    ensures CountOccurrences(list2, 3) == 3 && CountOccurrences(list2, 4) == 1
  {
    var s5: seq<int> := [3];
    var s4 := [9] + s5;
    var s3 := [3] + s4;
    var s2 := [5] + s3;
    var s1 := [3] + s2;
    CountCons(3, [], 3); CountCons(9, s5, 3); CountCons(3, s4, 3); CountCons(5, s3, 3); CountCons(3, s2, 3); CountCons(4, s1, 3);
    CountCons(3, [], 4); CountCons(9, s5, 4); CountCons(3, s4, 4); CountCons(5, s3, 4); CountCons(3, s2, 4); CountCons(4, s1, 4);
  }

  /** The values the library's unit tests expect on their second list. */
  lemma CountGolden(list2: seq<int>)
    requires list2 == [4, 3, 5, 3, 9, 3]
    ensures CountOccurrences(list2, 1) == 0 && CountOccurrences(list2, 2) == 0
    ensures CountOccurrences(list2, 3) == 3 && CountOccurrences(list2, 4) == 1
  {
    GoldenListShape(list2);
    GoldenCounts(list2);
  }
}
