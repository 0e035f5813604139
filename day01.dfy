/**
 * Day 1: the distance between two lists of location ids (pair them up after
 * sorting both) and their similarity score (each id of the first list,
 * weighted by how often it appears in the second).
 */
module Day01 {
  import opened Wrappers
  import opened Strings
  import opened Lib

  predicate Sorted(s: seq<int>) {
    forall i, j :: 0 <= i < j < |s| ==> s[i] <= s[j]
  }

  // -------------------------------------------------- sorting (sort_unstable)

  function Insert(x: int, s: seq<int>): (r: seq<int>)
    ensures |r| == |s| + 1
  {
    if s == [] then [x]
    else if x <= s[0] then [x] + s
    else [s[0]] + Insert(x, s[1..])
  }

  /**
   * The ascending order of `s`: what `sort_unstable` leaves in the copy of a
   * list. Ties are between equal integers, so instability is invisible.
   */
  function Sort(s: seq<int>): (r: seq<int>)
    ensures |r| == |s|
  {
    if s == [] then [] else Insert(s[0], Sort(s[1..]))
  }

  /** A head no larger than the first element of a sorted tail keeps it sorted. */
  lemma SortedCons(a: int, t: seq<int>)
    requires Sorted(t) && (t == [] || a <= t[0])
    ensures Sorted([a] + t)
  {
    var r := [a] + t;
    forall i, j | 0 <= i < j < |r|
      ensures r[i] <= r[j]
    {
      assert r[j] == t[j - 1];
      if i > 0 {
        assert r[i] == t[i - 1];
      } else {
        assert t[0] <= t[j - 1];
      }
    }
  }

  lemma {:induction false} InsertMultiset(x: int, s: seq<int>)
    ensures multiset(Insert(x, s)) == multiset(s) + multiset{x}
  {
    if s != [] && x > s[0] {
      InsertMultiset(x, s[1..]);
      assert s == [s[0]] + s[1..];
    }
  }

  lemma {:induction false} InsertSorted(x: int, s: seq<int>)
    requires Sorted(s)
    ensures Sorted(Insert(x, s))
    ensures multiset(Insert(x, s)) == multiset(s) + multiset{x}
  {
    InsertMultiset(x, s);
    if s == [] {
      assert Insert(x, s) == [x];
    } else if x <= s[0] {
      SortedCons(x, s);
    } else {
      var rest := s[1..];
      SortedTail(s);
      InsertSorted(x, rest);
      var tail := Insert(x, rest);
      assert tail[0] == x || tail[0] == s[1];
      SortedCons(s[0], tail);
    }
  }

  /** Sorting yields an ascending permutation of its input. */
  lemma {:induction false} SortSorted(s: seq<int>)
    ensures Sorted(Sort(s))
    ensures multiset(Sort(s)) == multiset(s)
  {
    if s != [] {
      SortSorted(s[1..]);
      InsertSorted(s[0], Sort(s[1..]));
      assert s == [s[0]] + s[1..];
    }
  }

  lemma SortedTail(s: seq<int>)
    requires Sorted(s) && s != []
    ensures Sorted(s[1..])
  {
    var rest := s[1..];
    forall i, j | 0 <= i < j < |rest|
      ensures rest[i] <= rest[j]
    {
      assert rest[i] == s[i + 1] && rest[j] == s[j + 1];
    }
  }

  lemma SortedHeadIsLeast(s: seq<int>, v: int)
    requires Sorted(s) && v in multiset(s)
    ensures s != [] && s[0] <= v
  {
    var k :| 0 <= k < |s| && s[k] == v;
  }

  lemma MultisetTail(s: seq<int>)
    requires s != []
    ensures multiset(s[1..]) == multiset(s) - multiset{s[0]}
  {
    assert s == [s[0]] + s[1..];
  }

  lemma HeadsEqual(a: seq<int>, b: seq<int>)
    requires Sorted(a) && Sorted(b) && multiset(a) == multiset(b) && a != []
    ensures b != [] && a[0] == b[0]
  {
    assert a[0] in multiset(b);
    SortedHeadIsLeast(b, a[0]);
    assert b[0] in multiset(a);
    SortedHeadIsLeast(a, b[0]);
  }

  lemma TailsPermutation(a: seq<int>, b: seq<int>)
    requires a != [] && b != [] && a[0] == b[0] && multiset(a) == multiset(b)
    ensures multiset(a[1..]) == multiset(b[1..])
  {
    MultisetTail(a);
    MultisetTail(b);
  }

  lemma ConsEqual(a: seq<int>, b: seq<int>)
    requires a != [] && b != [] && a[0] == b[0] && a[1..] == b[1..]
    ensures a == b
  {
    assert a == [a[0]] + a[1..] && b == [b[0]] + b[1..];
  }

  /** There is only one sorted arrangement of a multiset. */
  lemma {:induction false} SortedUnique(a: seq<int>, b: seq<int>)
    requires Sorted(a) && Sorted(b)
    requires multiset(a) == multiset(b)
    ensures a == b
  {
    if a == [] {
      assert |b| == |multiset(b)| == 0;
    } else {
      HeadsEqual(a, b);
      TailsPermutation(a, b);
      SortedTail(a);
      SortedTail(b);
      SortedUnique(a[1..], b[1..]);
      ConsEqual(a, b);
    }
  }

  /** Sorting depends only on which values occur how often. */
  lemma SortOfPermutation(a: seq<int>, b: seq<int>)
    requires multiset(a) == multiset(b)
    ensures Sort(a) == Sort(b)
  {
    SortSorted(a);
    SortSorted(b);
    SortedUnique(Sort(a), Sort(b));
  }

  // --------------------------------------------------------------- distance

  /** `zip(..).map(|(a, b)| (b - a).abs()).sum()` over two lists of one length. */
  function SumAbsDiff(a: seq<int>, b: seq<int>): (r: int)
    requires |a| == |b|
    ensures r >= 0
  {
    if a == [] then 0
    else (if b[0] >= a[0] then b[0] - a[0] else a[0] - b[0]) + SumAbsDiff(a[1..], b[1..])
  }

  /** `calculate_list_distance`: None for lists of different lengths. */
  function CalculateListDistance(list1: seq<int>, list2: seq<int>): (r: Option<int>)
    ensures r.None? <==> |list1| != |list2|
    ensures r.Some? ==> r.value >= 0
  {
    if |list1| != |list2| then None else Some(SumAbsDiff(Sort(list1), Sort(list2)))
  }

  /** The distance pairs the i-th smallest of one list with the i-th smallest of the other. */
  lemma DistanceIsSortedPairing(list1: seq<int>, list2: seq<int>, s1: seq<int>, s2: seq<int>)
    requires |list1| == |list2|
    requires Sorted(s1) && multiset(s1) == multiset(list1)
    requires Sorted(s2) && multiset(s2) == multiset(list2)
    ensures |s1| == |s2|
    ensures CalculateListDistance(list1, list2) == Some(SumAbsDiff(s1, s2))
  {
    SortSorted(list1);
    SortSorted(list2);
    SortedUnique(s1, Sort(list1));
    SortedUnique(s2, Sort(list2));
    assert |s1| == |multiset(list1)| && |s2| == |multiset(list2)|;
  }

  /** Reordering either input list leaves the distance unchanged. */
  lemma DistancePermutation(list1: seq<int>, list1': seq<int>, list2: seq<int>, list2': seq<int>)
    requires multiset(list1) == multiset(list1') && multiset(list2) == multiset(list2')
    ensures CalculateListDistance(list1, list2) == CalculateListDistance(list1', list2')
  {
    SortOfPermutation(list1, list1');
    SortOfPermutation(list2, list2');
    assert |list1| == |multiset(list1)| == |list1'|;
    assert |list2| == |multiset(list2)| == |list2'|;
  }

  lemma {:induction false} SumAbsDiffSymmetric(a: seq<int>, b: seq<int>)
    requires |a| == |b|
    ensures SumAbsDiff(a, b) == SumAbsDiff(b, a)
  {
    if a != [] {
      SumAbsDiffSymmetric(a[1..], b[1..]);
    }
  }

  /** The distance between two lists does not depend on their order. */
  lemma DistanceSymmetric(list1: seq<int>, list2: seq<int>)
    ensures CalculateListDistance(list1, list2) == CalculateListDistance(list2, list1)
  {
    if |list1| == |list2| {
      SumAbsDiffSymmetric(Sort(list1), Sort(list2));
    }
  }

  lemma {:induction false} SumAbsDiffZero(a: seq<int>, b: seq<int>)
    requires |a| == |b|
    ensures SumAbsDiff(a, b) == 0 <==> a == b
  {
    if a != [] {
      SumAbsDiffZero(a[1..], b[1..]);
      assert a == [a[0]] + a[1..] && b == [b[0]] + b[1..];
    }
  }

  /** The distance is zero exactly when the lists hold the same ids equally often. */
  lemma DistanceZero(list1: seq<int>, list2: seq<int>)
    requires |list1| == |list2|
    ensures CalculateListDistance(list1, list2) == Some(0) <==> multiset(list1) == multiset(list2)
  {
    SortSorted(list1);
    SortSorted(list2);
    SumAbsDiffZero(Sort(list1), Sort(list2));
    if multiset(list1) == multiset(list2) {
      SortOfPermutation(list1, list2);
    }
  }

  // ------------------------------------------------------------- similarity

  /** Σ over the ids x of `list1` of x times the occurrences of x in `list2`. */
  function SimilarityScore(list1: seq<int>, list2: seq<int>): int {
    if list1 == [] then 0
    else
      var x := list1[|list1| - 1];
      SimilarityScore(list1[..|list1| - 1], list2) + x * CountOccurrences(list2, x)
  }

  /** `calculate_similarity_score`: accumulates the score over `list1`, front to back. */
  method CalculateSimilarityScore(list1: seq<int>, list2: seq<int>) returns (score: int)
    ensures score == SimilarityScore(list1, list2)
  {
    score := 0;
    var i := 0;
    while i < |list1|
      invariant 0 <= i <= |list1|
      invariant score == SimilarityScore(list1[..i], list2)
    {
      var it := list1[i];
      assert list1[..i + 1][..i] == list1[..i];
      score := score + it * CountOccurrences(list2, it);
      i := i + 1;
    }
    assert list1[..i] == list1;
  }

  /** Σ over the elements y of `list` that equal `x` of y. */
  function WeightOf(list: seq<int>, x: int): int {
    if list == [] then 0
    else
      var y := list[|list| - 1];
      WeightOf(list[..|list| - 1], x) + (if y == x then y else 0)
  }

  /** Multiplication distributes over addition (kept apart so the lemmas below stay linear). */
  lemma MulDistributes(x: int, c: int, d: int)
    ensures x * (c + d) == x * c + x * d
  {
  }

  lemma {:induction false} WeightIsScaledCount(list: seq<int>, x: int)
    ensures WeightOf(list, x) == x * CountOccurrences(list, x)
  {
    if list != [] {
      var n := |list| - 1;
      var front, last := list[..n], list[n];
      WeightIsScaledCount(front, x);
      assert list == front + [last];
      CountAppend(front, [last], x);
      var c, d := CountOccurrences(front, x), CountOccurrences([last], x);
      assert d == if last == x then 1 else 0;
      MulDistributes(x, c, d);
    }
  }

  lemma {:induction false} SimilarityAppendRight(list1: seq<int>, list2: seq<int>, x: int)
    ensures SimilarityScore(list1, list2 + [x]) == SimilarityScore(list1, list2) + WeightOf(list1, x)
  {
    if list1 != [] {
      var n := |list1| - 1;
      var y := list1[n];
      SimilarityAppendRight(list1[..n], list2, x);
      CountAppend(list2, [x], y);
      var c, d := CountOccurrences(list2, y), CountOccurrences([x], y);
      assert d == if x == y then 1 else 0;
      MulDistributes(y, c, d);
    }
  }

  /** The similarity score is symmetric in the two lists. */
  lemma {:induction false} SimilaritySymmetric(list1: seq<int>, list2: seq<int>)
    ensures SimilarityScore(list1, list2) == SimilarityScore(list2, list1)
  {
    if list1 != [] {
      var n := |list1| - 1;
      var x := list1[n];
      assert list1 == list1[..n] + [x];
      SimilaritySymmetric(list1[..n], list2);
      SimilarityAppendRight(list2, list1[..n], x);
      WeightIsScaledCount(list2, x);
    } else {
      SimilarityOfEmpty(list2);
    }
  }

  lemma {:induction false} SimilarityOfEmpty(list: seq<int>)
    ensures SimilarityScore(list, []) == 0
  {
    if list != [] {
      SimilarityOfEmpty(list[..|list| - 1]);
    }
  }

  // -------------------------------------------------------- reading the lists

  /** The ids found on one line: every space-separated piece that parses as an `i32` after trimming. */
  function LineIds(line: string): seq<int> {
    ParsedPieces(Split(line, ' '))
  }

  function ParsedPieces(pieces: seq<string>): seq<int> {
    if pieces == [] then []
    else
      var rest := ParsedPieces(pieces[1..]);
      match ParseI32(Trim(pieces[0]))
      case Some(v) => [v] + rest
      case None => rest
  }

  /**
   * `extract_lists` over given lines: the first id of each line goes to the
   * first list and the second to the second. A line that does not yield
   * exactly two ids fails the assertion.
   */
  method ExtractLists(lines: seq<string>) returns (r: Result<(seq<int>, seq<int>)>)
    ensures r.Ok? <==> forall i :: 0 <= i < |lines| ==> |LineIds(lines[i])| == 2
    ensures r.Ok? ==> |r.value.0| == |lines| && |r.value.1| == |lines|
    ensures r.Ok? ==> forall i :: 0 <= i < |lines| ==>
      r.value.0[i] == LineIds(lines[i])[0] && r.value.1[i] == LineIds(lines[i])[1]
  {
    r := PairLines(lines, LineIds);
  }

  /**
   * The loop of `extract_lists`, for any reading `ids` of one line. Keeping
   * the reader a parameter keeps the parsing out of the loop's proof.
   */
  method PairLines(lines: seq<string>, ids: string -> seq<int>) returns (r: Result<(seq<int>, seq<int>)>)
    ensures r.Ok? <==> forall i :: 0 <= i < |lines| ==> |ids(lines[i])| == 2
    ensures r.Ok? ==> |r.value.0| == |lines| && |r.value.1| == |lines|
    ensures r.Ok? ==> forall i :: 0 <= i < |lines| ==>
      r.value.0[i] == ids(lines[i])[0] && r.value.1[i] == ids(lines[i])[1]
  {
    var list1: seq<int> := [];
    var list2: seq<int> := [];
    var i := 0;
    while i < |lines|
      invariant 0 <= i <= |lines|
      invariant |list1| == i && |list2| == i
      invariant forall k :: 0 <= k < i ==> PairedAt(lines, ids, list1, list2, k)
    {
      var found := ids(lines[i]);
      if |found| != 2 {
        return Panic("assertion `left == right` failed");
      }
      var next1, next2 := list1 + [found[0]], list2 + [found[1]];
      forall k | 0 <= k < i + 1
        ensures PairedAt(lines, ids, next1, next2, k)
      {
        if k < i {
          assert PairedAt(lines, ids, list1, list2, k);
          assert next1[k] == list1[k] && next2[k] == list2[k];
        }
      }
      list1, list2, i := next1, next2, i + 1;
    }
    forall k | 0 <= k < |lines|
      ensures |ids(lines[k])| == 2
      ensures list1[k] == ids(lines[k])[0] && list2[k] == ids(lines[k])[1]
    {
      assert PairedAt(lines, ids, list1, list2, k);
    }
    r := Ok((list1, list2));
  }

  /** Line `k` holds two ids, and they are entry `k` of the two lists. */
  predicate PairedAt(lines: seq<string>, ids: string -> seq<int>, list1: seq<int>, list2: seq<int>, k: int)
    requires 0 <= k < |lines| && k < |list1| && k < |list2|
  {
    var found := ids(lines[k]);
    |found| == 2 && list1[k] == found[0] && list2[k] == found[1]
  }

  /** The unit tests' two lists are 11 apart. */
  lemma DistanceGolden()
    ensures CalculateListDistance([3, 4, 2, 1, 3, 3], [4, 3, 5, 3, 9, 3]) == Some(11)
  {
    SortFirstTestList();
    SortSecondTestList();
    assert SumAbsDiff([1, 2, 3, 3, 3, 4], [3, 3, 3, 4, 5, 9]) == 11;
  }

  lemma SortFirstTestList()
    ensures Sort([3, 4, 2, 1, 3, 3]) == [1, 2, 3, 3, 3, 4]
  {
    SortStep(3, [], [], [3]);
    SortStep(3, [3], [3], [3, 3]);
    SortStep(1, [3, 3], [3, 3], [1, 3, 3]);
    SortStep(2, [1, 3, 3], [1, 3, 3], [1, 2, 3, 3]);
    SortStep(4, [2, 1, 3, 3], [1, 2, 3, 3], [1, 2, 3, 3, 4]);
    SortStep(3, [4, 2, 1, 3, 3], [1, 2, 3, 3, 4], [1, 2, 3, 3, 3, 4]);
  }

  lemma SortSecondTestList()
    ensures Sort([4, 3, 5, 3, 9, 3]) == [3, 3, 3, 4, 5, 9]
  {
    SortStep(3, [], [], [3]);
    SortStep(9, [3], [3], [3, 9]);
    SortStep(3, [9, 3], [3, 9], [3, 3, 9]);
    SortStep(5, [3, 9, 3], [3, 3, 9], [3, 3, 5, 9]);
    SortStep(3, [5, 3, 9, 3], [3, 3, 5, 9], [3, 3, 3, 5, 9]);
    SortStep(4, [3, 5, 3, 9, 3], [3, 3, 3, 5, 9], [3, 3, 3, 4, 5, 9]);
  }

  /** One step of the sort: the head is inserted into the sorted tail. */
  lemma SortStep(x: int, tail: seq<int>, sortedTail: seq<int>, r: seq<int>)
    requires Sort(tail) == sortedTail
    requires Insert(x, sortedTail) == r
    ensures Sort([x] + tail) == r
  {
    assert ([x] + tail)[1..] == tail;
  }

  /** The unit tests' two lists have similarity score 31. */
  lemma SimilarityGolden()
    ensures SimilarityScore([3, 4, 2, 1, 3, 3], [4, 3, 5, 3, 9, 3]) == 31
  {
    var b := [4, 3, 5, 3, 9, 3];
    CountGolden(b);
    SimilarityPrefixes(b);
  }

  lemma SimilarityPrefixes(b: seq<int>)
    requires b == [4, 3, 5, 3, 9, 3]
    requires CountOccurrences(b, 1) == 0 && CountOccurrences(b, 2) == 0
    requires CountOccurrences(b, 3) == 3 && CountOccurrences(b, 4) == 1
    ensures SimilarityScore([3, 4, 2, 1, 3, 3], b) == 31
  {
    assert [3][..0] == [];
    assert SimilarityScore([3], b) == 9;
    assert [3, 4][..1] == [3];
    assert SimilarityScore([3, 4], b) == 13;
    assert [3, 4, 2][..2] == [3, 4];
    assert SimilarityScore([3, 4, 2], b) == 13;
    assert [3, 4, 2, 1][..3] == [3, 4, 2];
    assert SimilarityScore([3, 4, 2, 1], b) == 13;
    assert [3, 4, 2, 1, 3][..4] == [3, 4, 2, 1];
    assert SimilarityScore([3, 4, 2, 1, 3], b) == 22;
    assert [3, 4, 2, 1, 3, 3][..5] == [3, 4, 2, 1, 3];
  }
}
