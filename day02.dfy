/**
 * Day 2: a report (a list of levels) is safe when its levels move in one
 * direction by steps of 1 to 3. At the top level one bad step may be repaired
 * by removing one of the two levels around the first bad step; a report
 * checked after such a removal gets no second chance.
 */
module Day02 {
  import opened Wrappers
  import opened Strings

  datatype Direction = Increasing | Decreasing | Invalid

  // ------------------------------------------------------------- direction

  /** The number of ascending adjacent pairs `r[i] < r[i + 1]`. */
  function Ascending(r: seq<int>): nat {
    if |r| < 2 then 0
    else Ascending(r[..|r| - 1]) + (if r[|r| - 2] < r[|r| - 1] then 1 else 0)
  }

  /** The number of descending adjacent pairs `r[i] > r[i + 1]`. */
  function Descending(r: seq<int>): nat {
    if |r| < 2 then 0
    else Descending(r[..|r| - 1]) + (if r[|r| - 2] > r[|r| - 1] then 1 else 0)
  }

  /** The number of equal adjacent pairs `r[i] == r[i + 1]`. */
  function Level(r: seq<int>): nat {
    if |r| < 2 then 0
    else Level(r[..|r| - 1]) + (if r[|r| - 2] == r[|r| - 1] then 1 else 0)
  }

  /** The verdict of `get_direction` on the three pair counts. */
  function Classify(asc: nat, desc: nat, eq: nat): Direction {
    if eq > 1 || (asc > 1 && desc > 1) then Invalid
    else if asc > desc then Increasing
    else if desc > asc then Decreasing
    else Invalid
  }

  function DirectionOf(r: seq<int>): Direction {
    Classify(Ascending(r), Descending(r), Level(r))
  }

  /** Every adjacent pair is counted exactly once. */
  lemma {:induction false} PairCountsCover(r: seq<int>)
    requires |r| >= 1
    ensures Ascending(r) + Descending(r) + Level(r) == |r| - 1
  {
    if |r| >= 2 {
      PairCountsCover(r[..|r| - 1]);
    }
  }

  /** `get_direction`: counts the three kinds of adjacent pairs in one pass. */
  method GetDirection(report: seq<int>) returns (d: Direction)
    ensures d == DirectionOf(report)
    ensures d == Increasing ==> Ascending(report) > Descending(report) && Level(report) <= 1
    ensures d == Decreasing ==> Descending(report) > Ascending(report) && Level(report) <= 1
  {
    var asc, desc, eq := 0, 0, 0;
    var i := 0;
    while i + 1 < |report|
      invariant |report| < 2 ==> i == 0 && asc == 0 && desc == 0 && eq == 0
      invariant |report| >= 2 ==> i + 1 <= |report|
      invariant |report| >= 2 ==> asc == Ascending(report[..i + 1])
      invariant |report| >= 2 ==> desc == Descending(report[..i + 1])
      invariant |report| >= 2 ==> eq == Level(report[..i + 1])
    {
      var a, b := report[i], report[i + 1];
      assert report[..i + 2][..i + 1] == report[..i + 1];
      if a > b {
        desc := desc + 1;
      } else if a < b {
        asc := asc + 1;
      } else if a == b {
        eq := eq + 1;
      }
      i := i + 1;
    }
    if |report| >= 2 {
      assert report[..i + 1] == report;
    }
    d := Classify(asc, desc, eq);
  }

  // ----------------------------------------------------------- transitions

  /** The step `a -> b` is acceptable for a report heading `dir`. */
  predicate ValidTransition(a: int, b: int, dir: Direction) {
    a != b
    && (if a >= b then a - b else b - a) <= 3
    && !(dir == Increasing && a > b)
    && !(dir == Decreasing && a < b)
  }

  /** The first index `i >= from` whose step `r[i] -> r[i + 1]` is not acceptable. */
  function FirstBadFrom(r: seq<int>, dir: Direction, from: nat): (bad: Option<nat>)
    ensures bad.Some? ==>
      && from <= bad.value && bad.value + 1 < |r|
      && !ValidTransition(r[bad.value], r[bad.value + 1], dir)
      && (forall j :: from <= j < bad.value ==> ValidTransition(r[j], r[j + 1], dir))
    ensures bad.None? ==> forall j :: from <= j && j + 1 < |r| ==> ValidTransition(r[j], r[j + 1], dir)
    decreases |r| - from
  {
    if from + 1 >= |r| then None
    else if !ValidTransition(r[from], r[from + 1], dir) then Some(from)
    else FirstBadFrom(r, dir, from + 1)
  }

  /** `report` with exactly the level at `index` taken out. */
  function Remove(report: seq<int>, index: nat): (r: seq<int>)
    requires index < |report|
    ensures |r| == |report| - 1
    ensures forall k :: 0 <= k < |r| ==> r[k] == if k < index then report[k] else report[k + 1]
  {
    report[..index] + report[index + 1..]
  }

  /**
   * `check_report(report, removed)`: reports shorter than two levels and
   * reports without a clear direction are unsafe; otherwise the first bad
   * step makes the report unsafe once a level has been removed, and before
   * that is repaired by removing either of its two levels.
   */
  function IsSafe(report: seq<int>, removed: nat): bool
    decreases |report|
  {
    if |report| < 2 then false
    else
      var dir := DirectionOf(report);
      if dir == Invalid then false
      else
        match FirstBadFrom(report, dir, 0)
        case None => true
        case Some(i) =>
          if removed > 0 then false
          else IsSafe(Remove(report, i), 1) || IsSafe(Remove(report, i + 1), 1)
  }

  /** `check_report`: finds the first bad step and, at the top level only, tries to repair it. */
  method CheckReport(report: seq<int>, removed: nat) returns (safe: bool)
    ensures safe == IsSafe(report, removed)
    ensures |report| < 2 ==> !safe
    decreases |report|, 2
  {
    if |report| < 2 {
      return false;
    }
    var direction := GetDirection(report);
    if direction == Invalid {
      return false;
    }
    var badTransition := FindBadTransition(report, direction);
    if badTransition.Some? {
      if removed > 0 {
        return false;
      }
      SafeWithBadStep(report, badTransition.value.0);
      safe := CheckWithoutBadTransition(report, badTransition.value);
    } else {
      safe := true;
    }
  }

  /** The window scan of `check_report`: the first step `report[i] -> report[i + 1]` that is not acceptable. */
  method FindBadTransition(report: seq<int>, direction: Direction) returns (badTransition: Option<(nat, nat)>)
    ensures badTransition.None? ==> FirstBadFrom(report, direction, 0).None?
    ensures badTransition.Some? ==>
      && FirstBadFrom(report, direction, 0) == Some(badTransition.value.0)
      && badTransition.value.1 == badTransition.value.0 + 1
  {
    badTransition := None;
    if |report| == 0 {
      return;
    }
    var i := 0;
    while i + 1 < |report|
      invariant i + 1 <= |report|
      invariant forall j :: 0 <= j < i ==> ValidTransition(report[j], report[j + 1], direction)
    {
      var a, b := report[i], report[i + 1];
      var validTransition := true;
      if a == b {
        validTransition := false;
      }
      if (if a >= b then a - b else b - a) > 3 {
        validTransition := false;
      }
      if direction == Increasing && a > b {
        validTransition := false;
      }
      if direction == Decreasing && a < b {
        validTransition := false;
      }
      if !validTransition {
        FirstBadAfterGoodSteps(report, direction, 0, i);
        return Some((i, i + 1));
      }
      i := i + 1;
    }
    FirstBadAfterGoodSteps(report, direction, 0, i);
  }

  /** After good steps from `from` up to `i`, the first bad step is at `i` if that one is bad, and there is none at the end. */
  lemma {:induction false} FirstBadAfterGoodSteps(r: seq<int>, dir: Direction, from: nat, i: nat)
    requires from <= i && i + 1 <= |r|
    requires forall j :: from <= j < i ==> ValidTransition(r[j], r[j + 1], dir)
    ensures i + 1 < |r| && !ValidTransition(r[i], r[i + 1], dir) ==> FirstBadFrom(r, dir, from) == Some(i)
    ensures i + 1 == |r| ==> FirstBadFrom(r, dir, from) == None
    decreases i - from
  {
    if from < i {
      FirstBadAfterGoodSteps(r, dir, from + 1, i);
    }
  }

  lemma SafeWithBadStep(report: seq<int>, i: nat)
    requires |report| >= 2 && DirectionOf(report) != Invalid
    requires FirstBadFrom(report, DirectionOf(report), 0) == Some(i)
    ensures IsSafe(report, 0) == (IsSafe(Remove(report, i), 1) || IsSafe(Remove(report, i + 1), 1))
  {
  }

  /** `check_without_bad_transition`: tries removing each of the two levels. */
  method CheckWithoutBadTransition(report: seq<int>, index: (nat, nat)) returns (safe: bool)
    requires index.0 < |report| && index.1 < |report|
    ensures safe == (IsSafe(Remove(report, index.0), 1) || IsSafe(Remove(report, index.1), 1))
    decreases |report|, 1
  {
    var (a, b) := index;
    var indexOneRemoved := CheckWithoutElement(report, a);
    var indexTwoRemoved := CheckWithoutElement(report, b);
    safe := indexOneRemoved || indexTwoRemoved;
  }

  /** `check_without_element`: checks a copy of the report with one level removed. */
  method CheckWithoutElement(report: seq<int>, index: nat) returns (safe: bool)
    requires index < |report|
    ensures safe == IsSafe(Remove(report, index), 1)
    decreases |report|, 0
  {
    var reportWithoutLevel := report[..index] + report[index + 1..];
    safe := CheckReport(reportWithoutLevel, 1);
  }

  // ------------------------------------------------------------ properties

  /** A report that has lost a level is safe only if it is clean as it stands. */
  lemma SafeAfterRemoval(report: seq<int>, removed: nat)
    requires removed > 0
    ensures IsSafe(report, removed) <==>
      |report| >= 2 && DirectionOf(report) != Invalid
      && forall j :: 0 <= j && j + 1 < |report| ==> ValidTransition(report[j], report[j + 1], DirectionOf(report))
  {
    if |report| >= 2 && DirectionOf(report) != Invalid {
      var bad := FirstBadFrom(report, DirectionOf(report), 0);
      if bad.Some? {
        assert !ValidTransition(report[bad.value], report[bad.value + 1], DirectionOf(report));
      }
    }
  }

  /**
   * Repair removes at most one level: a safe report is either clean as it
   * stands, or clean after removing one of the two levels of its first bad step.
   */
  lemma AtMostOneRemoval(report: seq<int>)
    requires IsSafe(report, 0)
    ensures IsSafe(report, 1) || exists i :: 0 <= i < |report| && IsSafe(Remove(report, i), 1)
  {
    var dir := DirectionOf(report);
    match FirstBadFrom(report, dir, 0)
    case None =>
      assert IsSafe(report, 1);
    case Some(i) =>
      if IsSafe(Remove(report, i), 1) {
      } else {
        assert IsSafe(Remove(report, i + 1), 1);
      }
  }

  predicate StrictlyIncreasingBySmallSteps(r: seq<int>) {
    forall i :: 0 <= i && i + 1 < |r| ==> 1 <= r[i + 1] - r[i] <= 3
  }

  predicate StrictlyDecreasingBySmallSteps(r: seq<int>) {
    forall i :: 0 <= i && i + 1 < |r| ==> 1 <= r[i] - r[i + 1] <= 3
  }

  lemma {:induction false} IncreasingCounts(r: seq<int>)
    requires |r| >= 1 && StrictlyIncreasingBySmallSteps(r)
    ensures Ascending(r) == |r| - 1 && Descending(r) == 0 && Level(r) == 0
  {
    if |r| >= 2 {
      IncreasingCounts(r[..|r| - 1]);
    }
  }

  lemma {:induction false} DecreasingCounts(r: seq<int>)
    requires |r| >= 1 && StrictlyDecreasingBySmallSteps(r)
    ensures Descending(r) == |r| - 1 && Ascending(r) == 0 && Level(r) == 0
  {
    if |r| >= 2 {
      DecreasingCounts(r[..|r| - 1]);
    }
  }

  /** A strictly monotone report with steps of 1 to 3 is safe without any removal. */
  lemma MonotoneIsSafe(r: seq<int>)
    requires |r| >= 2
    requires StrictlyIncreasingBySmallSteps(r) || StrictlyDecreasingBySmallSteps(r)
    ensures IsSafe(r, 0) && IsSafe(r, 1)
  {
    if StrictlyIncreasingBySmallSteps(r) {
      IncreasingCounts(r);
      assert DirectionOf(r) == Increasing;
    } else {
      DecreasingCounts(r);
      assert DirectionOf(r) == Decreasing;
    }
    assert FirstBadFrom(r, DirectionOf(r), 0) == None;
  }

  // --------------------------------------------------------------- reports

  /** The number of safe reports among `reports`. */
  function SafeCount(reports: seq<seq<int>>): nat {
    if reports == [] then 0
    else SafeCount(reports[..|reports| - 1]) + (if IsSafe(reports[|reports| - 1], 0) then 1 else 0)
  }

  /** The counting loop of `check_all_reports`, over reports already parsed. */
  method CountSafeReports(reports: seq<seq<int>>) returns (safe: nat)
    ensures safe == SafeCount(reports)
    ensures safe <= |reports|
  {
    safe := 0;
    var i := 0;
    while i < |reports|
      invariant 0 <= i <= |reports|
      invariant safe == SafeCount(reports[..i]) && safe <= i
    {
      assert reports[..i + 1][..i] == reports[..i];
      var ok := CheckReport(reports[i], 0);
      if ok {
        safe := safe + 1;
      }
      i := i + 1;
    }
    assert reports[..i] == reports;
  }

  /**
   * The levels of one line: the space-separated pieces that are not blank,
   * each parsed as an `i32` as it stands; a piece that does not parse panics.
   */
  function ParseReport(line: string): Option<seq<int>> {
    ParsePieces(Split(line, ' '))
  }

  function ParsePieces(pieces: seq<string>): Option<seq<int>> {
    if pieces == [] then Some([])
    else
      match ParsePieces(pieces[1..])
      case None => None
      case Some(rest) =>
        if Trim(pieces[0]) == [] then Some(rest)
        else
          match ParseI32(pieces[0])
          case None => None
          case Some(v) => Some([v] + rest)
  }

  /** A report written with single spaces reads back as itself. */
  lemma ParseShownReport(report: seq<int>)
    requires forall i :: 0 <= i < |report| ==> MinI32 <= report[i] <= MaxI32
    ensures ParsePieces(seq(|report|, i requires 0 <= i < |report| => ShowInt(report[i])))
      == Some(report)
  {
    ShownPiecesParse(report, seq(|report|, i requires 0 <= i < |report| => ShowInt(report[i])));
  }

  /** Pieces that render the levels of a report one by one parse back to the report. */
  lemma {:induction false} ShownPiecesParse(report: seq<int>, shown: seq<string>)
    requires forall i :: 0 <= i < |report| ==> MinI32 <= report[i] <= MaxI32
    requires |shown| == |report| && forall i :: 0 <= i < |report| ==> shown[i] == ShowInt(report[i])
    ensures ParsePieces(shown) == Some(report)
  {
    if report != [] {
      ShownPiecesParse(report[1..], shown[1..]);
      ParseShowI32(report[0]);
      ShownIsNotBlank(report[0]);
      ParsePiecesCons(shown[0], shown[1..], report[0], report[1..]);
      assert shown == [shown[0]] + shown[1..];
      assert report == [report[0]] + report[1..];
    }
  }

  /** A non-blank piece that parses puts its value in front of the rest. */
  lemma ParsePiecesCons(piece: string, pieces: seq<string>, v: int, rest: seq<int>)
    requires Trim(piece) != [] && ParseI32(piece) == Some(v) && ParsePieces(pieces) == Some(rest)
    ensures ParsePieces([piece] + pieces) == Some([v] + rest)
  {
    assert ([piece] + pieces)[1..] == pieces;
  }

  lemma ShownIsNotBlank(v: int)
    ensures Trim(ShowInt(v)) != []
  {
    var s := ShowInt(v);
    assert !IsWhitespace(s[0]);
    assert LeadingWhitespace(s) == 0;
    if v < 0 {
      assert !IsWhitespace(s[|s| - 1]) by { assert s[|s| - 1] == ShowNat(-v)[|ShowNat(-v)| - 1]; }
    }
    assert TrailingWhitespace(s) == 0;
  }

  /** `check_all_reports` over given lines: parse each line and count the safe reports. */
  method CheckAllReports(lines: seq<string>) returns (r: Result<nat>)
    ensures r.Ok? <==> forall i :: 0 <= i < |lines| ==> ParseReport(lines[i]).Some?
    ensures r.Ok? ==> r.value == SafeCount(seq(|lines|, i requires 0 <= i < |lines| => ParseReport(lines[i]).value))
  {
    var parse := ParseReport;
    r := CountSafeLines(lines, parse);
    assert forall i :: 0 <= i < |lines| ==> parse(lines[i]) == ParseReport(lines[i]);
    if r.Ok? {
      var parsed := seq(|lines|, i requires 0 <= i < |lines| => parse(lines[i]).value);
      assert parsed == seq(|lines|, i requires 0 <= i < |lines| => ParseReport(lines[i]).value);
    }
  }

  /** The loop of `check_all_reports`, for any line parser `parse`. */
  method CountSafeLines(lines: seq<string>, parse: string -> Option<seq<int>>) returns (r: Result<nat>)
    ensures r.Ok? <==> forall i :: 0 <= i < |lines| ==> parse(lines[i]).Some?
    ensures r.Ok? ==> r.value == SafeCount(seq(|lines|, i requires 0 <= i < |lines| => parse(lines[i]).value))
  {
    var safe := 0;
    var i := 0;
    ghost var reports: seq<seq<int>> := [];
    while i < |lines|
      invariant 0 <= i <= |lines|
      invariant |reports| == i
      invariant forall k :: 0 <= k < i ==> parse(lines[k]) == Some(reports[k])
      invariant safe == SafeCount(reports)
    {
      var parsed := parse(lines[i]);
      if parsed.None? {
        return Panic("failed to parse report");
      }
      var ok := CheckReport(parsed.value, 0);
      SafeCountSnoc(reports, parsed.value);
      reports := reports + [parsed.value];
      if ok {
        safe := safe + 1;
      }
      i := i + 1;
    }
    assert reports == seq(|lines|, i requires 0 <= i < |lines| => parse(lines[i]).value);
    r := Ok(safe);
  }

  // --------------------------------------------------------------- golden

  /** Strictly increasing by one. */
  lemma GoldenAllIncreasing()
    ensures IsSafe([1, 2, 3, 4, 5], 0)
    ensures !IsSafe([], 0) && !IsSafe([1], 0)
  {
    assert [1, 2, 3, 4, 5][..4] == [1, 2, 3, 4];
    assert [1, 2, 3, 4][..3] == [1, 2, 3];
    assert [1, 2, 3][..2] == [1, 2];
    assert [1, 2][..1] == [1];
    assert DirectionOf([1, 2, 3, 4, 5]) == Increasing;
    assert FirstBadFrom([1, 2, 3, 4, 5], Increasing, 4) == None;
    assert FirstBadFrom([1, 2, 3, 4, 5], Increasing, 3) == None;
    assert FirstBadFrom([1, 2, 3, 4, 5], Increasing, 2) == None;
    assert FirstBadFrom([1, 2, 3, 4, 5], Increasing, 1) == None;
    assert FirstBadFrom([1, 2, 3, 4, 5], Increasing, 0) == None;
  }

  /** A leading equal pair is repaired. */
  lemma GoldenLeadingPair()
    ensures IsSafe([1, 1, 3, 4, 5], 0)
  {
    var r := [1, 1, 3, 4, 5];
    LeadingPairFirstBad(r);
    assert Remove(r, 0) == [1, 3, 4, 5];
    LeadingPairRest([1, 3, 4, 5]);
  }

  /** The first report of the leading-pair test heads upward and breaks at its first step. */
  lemma LeadingPairFirstBad(r: seq<int>)
    requires r == [1, 1, 3, 4, 5]
    ensures DirectionOf(r) == Increasing && FirstBadFrom(r, Increasing, 0) == Some(0)
  {
    assert r[..4] == [1, 1, 3, 4];
    assert r[..4][..3] == [1, 1, 3];
    assert r[..4][..3][..2] == [1, 1];
    var p2, p3, p4 := r[..4][..3][..2], r[..4][..3], r[..4];
    assert Ascending(p2) == 0 && Descending(p2) == 0 && Level(p2) == 1;
    assert Ascending(p3) == 1 && Descending(p3) == 0 && Level(p3) == 1;
    assert Ascending(p4) == 2 && Descending(p4) == 0 && Level(p4) == 1;
    assert Ascending(r) == 3 && Descending(r) == 0 && Level(r) == 1;
  }

  /** The leading-pair report with its first level removed is safe on its own. */
  lemma LeadingPairRest(r: seq<int>)
    requires r == [1, 3, 4, 5]
    ensures IsSafe(r, 1)
  {
    assert r[..3] == [1, 3, 4];
    assert r[..3][..2] == [1, 3];
    var p2, p3 := r[..3][..2], r[..3];
    assert Ascending(p2) == 1 && Descending(p2) == 0 && Level(p2) == 0;
    assert Ascending(p3) == 2 && Descending(p3) == 0 && Level(p3) == 0;
    assert Ascending(r) == 3 && Descending(r) == 0 && Level(r) == 0;
    assert DirectionOf(r) == Increasing;
    assert FirstBadFrom(r, Increasing, 3) == None;
    assert FirstBadFrom(r, Increasing, 2) == None;
    assert FirstBadFrom(r, Increasing, 1) == None;
    assert FirstBadFrom(r, Increasing, 0) == None;
  }

  /** Two equal pairs leave no direction. */
  lemma GoldenTwoEqualPairs()
    ensures !IsSafe([1, 1, 1, 4, 5], 0)
  {
    assert [1, 1, 1, 4, 5][..4] == [1, 1, 1, 4];
    assert [1, 1, 1, 4][..3] == [1, 1, 1];
    assert [1, 1, 1][..2] == [1, 1];
    assert [1, 1][..1] == [1];
    assert DirectionOf([1, 1, 1, 4, 5]) == Invalid;
  }

  /** An inner equal pair is repaired. */
  lemma GoldenInnerPair()
    ensures IsSafe([1, 2, 2, 4, 5], 0)
  {
    assert [1, 2, 2, 4, 5][..4] == [1, 2, 2, 4];
    assert [1, 2, 2, 4][..3] == [1, 2, 2];
    assert [1, 2, 2][..2] == [1, 2];
    assert [1, 2][..1] == [1];
    assert DirectionOf([1, 2, 2, 4, 5]) == Increasing;
    assert FirstBadFrom([1, 2, 2, 4, 5], Increasing, 1) == Some(1);
    assert FirstBadFrom([1, 2, 2, 4, 5], Increasing, 0) == Some(1);
    assert Remove([1, 2, 2, 4, 5], 1) == [1, 2, 4, 5];
    assert Remove([1, 2, 2, 4, 5], 2) == [1, 2, 4, 5];
    assert [1, 2, 4, 5][..3] == [1, 2, 4];
    assert [1, 2, 4][..2] == [1, 2];
    assert [1, 2][..1] == [1];
    assert DirectionOf([1, 2, 4, 5]) == Increasing;
    assert FirstBadFrom([1, 2, 4, 5], Increasing, 3) == None;
    assert FirstBadFrom([1, 2, 4, 5], Increasing, 2) == None;
    assert FirstBadFrom([1, 2, 4, 5], Increasing, 1) == None;
    assert FirstBadFrom([1, 2, 4, 5], Increasing, 0) == None;
    assert IsSafe([1, 2, 4, 5], 1);
  }

  /** An equal pair and a turn are two faults. */
  lemma GoldenPairAndTurn()
    ensures !IsSafe([1, 2, 2, 4, 3], 0)
  {
    assert [1, 2, 2, 4, 3][..4] == [1, 2, 2, 4];
    assert [1, 2, 2, 4][..3] == [1, 2, 2];
    assert [1, 2, 2][..2] == [1, 2];
    assert [1, 2][..1] == [1];
    assert DirectionOf([1, 2, 2, 4, 3]) == Increasing;
    assert FirstBadFrom([1, 2, 2, 4, 3], Increasing, 1) == Some(1);
    assert FirstBadFrom([1, 2, 2, 4, 3], Increasing, 0) == Some(1);
    assert Remove([1, 2, 2, 4, 3], 1) == [1, 2, 4, 3];
    assert Remove([1, 2, 2, 4, 3], 2) == [1, 2, 4, 3];
    assert [1, 2, 4, 3][..3] == [1, 2, 4];
    assert [1, 2, 4][..2] == [1, 2];
    assert [1, 2][..1] == [1];
    assert DirectionOf([1, 2, 4, 3]) == Increasing;
    assert FirstBadFrom([1, 2, 4, 3], Increasing, 2) == Some(2);
    assert FirstBadFrom([1, 2, 4, 3], Increasing, 1) == Some(2);
    assert FirstBadFrom([1, 2, 4, 3], Increasing, 0) == Some(2);
    assert !IsSafe([1, 2, 4, 3], 1);
  }

  /** Removing either 2 repairs the report. */
  lemma GoldenEitherTwo()
    ensures IsSafe([1, 2, 2, 3], 0)
  {
    assert [1, 2, 2, 3][..3] == [1, 2, 2];
    assert [1, 2, 2][..2] == [1, 2];
    assert [1, 2][..1] == [1];
    assert DirectionOf([1, 2, 2, 3]) == Increasing;
    assert FirstBadFrom([1, 2, 2, 3], Increasing, 1) == Some(1);
    assert FirstBadFrom([1, 2, 2, 3], Increasing, 0) == Some(1);
    assert Remove([1, 2, 2, 3], 1) == [1, 2, 3];
    assert Remove([1, 2, 2, 3], 2) == [1, 2, 3];
    assert [1, 2, 3][..2] == [1, 2];
    assert [1, 2][..1] == [1];
    assert DirectionOf([1, 2, 3]) == Increasing;
    assert FirstBadFrom([1, 2, 3], Increasing, 2) == None;
    assert FirstBadFrom([1, 2, 3], Increasing, 1) == None;
    assert FirstBadFrom([1, 2, 3], Increasing, 0) == None;
    assert IsSafe([1, 2, 3], 1);
  }

  /** A leading jump of four is repaired by dropping the first level. */
  lemma GoldenLeadingJump()
    ensures IsSafe([1, 5, 6, 9], 0)
  {
    assert [1, 5, 6, 9][..3] == [1, 5, 6];
    assert [1, 5, 6][..2] == [1, 5];
    assert [1, 5][..1] == [1];
    assert DirectionOf([1, 5, 6, 9]) == Increasing;
    assert FirstBadFrom([1, 5, 6, 9], Increasing, 0) == Some(0);
    assert Remove([1, 5, 6, 9], 0) == [5, 6, 9];
    assert Remove([1, 5, 6, 9], 1) == [1, 6, 9];
    assert [5, 6, 9][..2] == [5, 6];
    assert [5, 6][..1] == [5];
    assert DirectionOf([5, 6, 9]) == Increasing;
    assert FirstBadFrom([5, 6, 9], Increasing, 2) == None;
    assert FirstBadFrom([5, 6, 9], Increasing, 1) == None;
    assert FirstBadFrom([5, 6, 9], Increasing, 0) == None;
    assert IsSafe([5, 6, 9], 1);
    assert [1, 6, 9][..2] == [1, 6];
    assert [1, 6][..1] == [1];
    assert DirectionOf([1, 6, 9]) == Increasing;
    assert FirstBadFrom([1, 6, 9], Increasing, 0) == Some(0);
    assert !IsSafe([1, 6, 9], 1);
  }

  /** A turn in the middle is repaired. */
  lemma GoldenInnerTurn()
    ensures IsSafe([1, 2, 3, 2, 5], 0)
  {
    assert [1, 2, 3, 2, 5][..4] == [1, 2, 3, 2];
    assert [1, 2, 3, 2][..3] == [1, 2, 3];
    assert [1, 2, 3][..2] == [1, 2];
    assert [1, 2][..1] == [1];
    assert DirectionOf([1, 2, 3, 2, 5]) == Increasing;
    assert FirstBadFrom([1, 2, 3, 2, 5], Increasing, 2) == Some(2);
    assert FirstBadFrom([1, 2, 3, 2, 5], Increasing, 1) == Some(2);
    assert FirstBadFrom([1, 2, 3, 2, 5], Increasing, 0) == Some(2);
    assert Remove([1, 2, 3, 2, 5], 2) == [1, 2, 2, 5];
    assert Remove([1, 2, 3, 2, 5], 3) == [1, 2, 3, 5];
    assert [1, 2, 2, 5][..3] == [1, 2, 2];
    assert [1, 2, 2][..2] == [1, 2];
    assert [1, 2][..1] == [1];
    assert DirectionOf([1, 2, 2, 5]) == Increasing;
    assert FirstBadFrom([1, 2, 2, 5], Increasing, 1) == Some(1);
    assert FirstBadFrom([1, 2, 2, 5], Increasing, 0) == Some(1);
    assert !IsSafe([1, 2, 2, 5], 1);
    assert [1, 2, 3, 5][..3] == [1, 2, 3];
    assert [1, 2, 3][..2] == [1, 2];
    assert [1, 2][..1] == [1];
    assert DirectionOf([1, 2, 3, 5]) == Increasing;
    assert FirstBadFrom([1, 2, 3, 5], Increasing, 3) == None;
    assert FirstBadFrom([1, 2, 3, 5], Increasing, 2) == None;
    assert FirstBadFrom([1, 2, 3, 5], Increasing, 1) == None;
    assert FirstBadFrom([1, 2, 3, 5], Increasing, 0) == None;
    assert IsSafe([1, 2, 3, 5], 1);
  }

  /** An equal pair in a decreasing report is repaired. */
  lemma GoldenDecreasingPair()
    ensures IsSafe([9, 8, 6, 6, 5], 0)
  {
    assert [9, 8, 6, 6, 5][..4] == [9, 8, 6, 6];
    assert [9, 8, 6, 6][..3] == [9, 8, 6];
    assert [9, 8, 6][..2] == [9, 8];
    assert [9, 8][..1] == [9];
    assert DirectionOf([9, 8, 6, 6, 5]) == Decreasing;
    assert FirstBadFrom([9, 8, 6, 6, 5], Decreasing, 2) == Some(2);
    assert FirstBadFrom([9, 8, 6, 6, 5], Decreasing, 1) == Some(2);
    assert FirstBadFrom([9, 8, 6, 6, 5], Decreasing, 0) == Some(2);
    assert Remove([9, 8, 6, 6, 5], 2) == [9, 8, 6, 5];
    assert Remove([9, 8, 6, 6, 5], 3) == [9, 8, 6, 5];
    assert [9, 8, 6, 5][..3] == [9, 8, 6];
    assert [9, 8, 6][..2] == [9, 8];
    assert [9, 8][..1] == [9];
    assert DirectionOf([9, 8, 6, 5]) == Decreasing;
    assert FirstBadFrom([9, 8, 6, 5], Decreasing, 3) == None;
    assert FirstBadFrom([9, 8, 6, 5], Decreasing, 2) == None;
    assert FirstBadFrom([9, 8, 6, 5], Decreasing, 1) == None;
    assert FirstBadFrom([9, 8, 6, 5], Decreasing, 0) == None;
    assert IsSafe([9, 8, 6, 5], 1);
  }

  /** An early turn is repaired. */
  lemma GoldenEarlyTurn()
    ensures IsSafe([1, 3, 2, 4, 5], 0)
  {
    assert [1, 3, 2, 4, 5][..4] == [1, 3, 2, 4];
    assert [1, 3, 2, 4][..3] == [1, 3, 2];
    assert [1, 3, 2][..2] == [1, 3];
    assert [1, 3][..1] == [1];
    assert DirectionOf([1, 3, 2, 4, 5]) == Increasing;
    assert FirstBadFrom([1, 3, 2, 4, 5], Increasing, 1) == Some(1);
    assert FirstBadFrom([1, 3, 2, 4, 5], Increasing, 0) == Some(1);
    assert Remove([1, 3, 2, 4, 5], 1) == [1, 2, 4, 5];
    assert Remove([1, 3, 2, 4, 5], 2) == [1, 3, 4, 5];
    assert [1, 2, 4, 5][..3] == [1, 2, 4];
    assert [1, 2, 4][..2] == [1, 2];
    assert [1, 2][..1] == [1];
    assert DirectionOf([1, 2, 4, 5]) == Increasing;
    assert FirstBadFrom([1, 2, 4, 5], Increasing, 3) == None;
    assert FirstBadFrom([1, 2, 4, 5], Increasing, 2) == None;
    assert FirstBadFrom([1, 2, 4, 5], Increasing, 1) == None;
    assert FirstBadFrom([1, 2, 4, 5], Increasing, 0) == None;
    assert IsSafe([1, 2, 4, 5], 1);
    assert [1, 3, 4, 5][..3] == [1, 3, 4];
    assert [1, 3, 4][..2] == [1, 3];
    assert [1, 3][..1] == [1];
    assert DirectionOf([1, 3, 4, 5]) == Increasing;
    assert FirstBadFrom([1, 3, 4, 5], Increasing, 3) == None;
    assert FirstBadFrom([1, 3, 4, 5], Increasing, 2) == None;
    assert FirstBadFrom([1, 3, 4, 5], Increasing, 1) == None;
    assert FirstBadFrom([1, 3, 4, 5], Increasing, 0) == None;
    assert IsSafe([1, 3, 4, 5], 1);
  }

  /** The first list of the combined test. */
  lemma GoldenList1()
    ensures IsSafe([7, 6, 4, 2, 1], 0)
  {
    assert [7, 6, 4, 2, 1][..4] == [7, 6, 4, 2];
    assert [7, 6, 4, 2][..3] == [7, 6, 4];
    assert [7, 6, 4][..2] == [7, 6];
    assert [7, 6][..1] == [7];
    assert DirectionOf([7, 6, 4, 2, 1]) == Decreasing;
    assert FirstBadFrom([7, 6, 4, 2, 1], Decreasing, 4) == None;
    assert FirstBadFrom([7, 6, 4, 2, 1], Decreasing, 3) == None;
    assert FirstBadFrom([7, 6, 4, 2, 1], Decreasing, 2) == None;
    assert FirstBadFrom([7, 6, 4, 2, 1], Decreasing, 1) == None;
    assert FirstBadFrom([7, 6, 4, 2, 1], Decreasing, 0) == None;
  }

  /** The second list: a jump of five cannot be repaired. */
  lemma GoldenList2()
    ensures !IsSafe([1, 2, 7, 8, 9], 0)
  {
    assert [1, 2, 7, 8, 9][..4] == [1, 2, 7, 8];
    assert [1, 2, 7, 8][..3] == [1, 2, 7];
    assert [1, 2, 7][..2] == [1, 2];
    assert [1, 2][..1] == [1];
    assert DirectionOf([1, 2, 7, 8, 9]) == Increasing;
    assert FirstBadFrom([1, 2, 7, 8, 9], Increasing, 1) == Some(1);
    assert FirstBadFrom([1, 2, 7, 8, 9], Increasing, 0) == Some(1);
    assert Remove([1, 2, 7, 8, 9], 1) == [1, 7, 8, 9];
    assert Remove([1, 2, 7, 8, 9], 2) == [1, 2, 8, 9];
    assert [1, 7, 8, 9][..3] == [1, 7, 8];
    assert [1, 7, 8][..2] == [1, 7];
    assert [1, 7][..1] == [1];
    assert DirectionOf([1, 7, 8, 9]) == Increasing;
    assert FirstBadFrom([1, 7, 8, 9], Increasing, 0) == Some(0);
    assert !IsSafe([1, 7, 8, 9], 1);
    assert [1, 2, 8, 9][..3] == [1, 2, 8];
    assert [1, 2, 8][..2] == [1, 2];
    assert [1, 2][..1] == [1];
    assert DirectionOf([1, 2, 8, 9]) == Increasing;
    assert FirstBadFrom([1, 2, 8, 9], Increasing, 1) == Some(1);
    assert FirstBadFrom([1, 2, 8, 9], Increasing, 0) == Some(1);
    assert !IsSafe([1, 2, 8, 9], 1);
  }

  /** The third list: a drop of four cannot be repaired. */
  lemma GoldenList3()
    ensures !IsSafe([9, 7, 6, 2, 1], 0)
  {
    assert [9, 7, 6, 2, 1][..4] == [9, 7, 6, 2];
    assert [9, 7, 6, 2][..3] == [9, 7, 6];
    assert [9, 7, 6][..2] == [9, 7];
    assert [9, 7][..1] == [9];
    assert DirectionOf([9, 7, 6, 2, 1]) == Decreasing;
    assert FirstBadFrom([9, 7, 6, 2, 1], Decreasing, 2) == Some(2);
    assert FirstBadFrom([9, 7, 6, 2, 1], Decreasing, 1) == Some(2);
    assert FirstBadFrom([9, 7, 6, 2, 1], Decreasing, 0) == Some(2);
    assert Remove([9, 7, 6, 2, 1], 2) == [9, 7, 2, 1];
    assert Remove([9, 7, 6, 2, 1], 3) == [9, 7, 6, 1];
    assert [9, 7, 2, 1][..3] == [9, 7, 2];
    assert [9, 7, 2][..2] == [9, 7];
    assert [9, 7][..1] == [9];
    assert DirectionOf([9, 7, 2, 1]) == Decreasing;
    assert FirstBadFrom([9, 7, 2, 1], Decreasing, 1) == Some(1);
    assert FirstBadFrom([9, 7, 2, 1], Decreasing, 0) == Some(1);
    assert !IsSafe([9, 7, 2, 1], 1);
    assert [9, 7, 6, 1][..3] == [9, 7, 6];
    assert [9, 7, 6][..2] == [9, 7];
    assert [9, 7][..1] == [9];
    assert DirectionOf([9, 7, 6, 1]) == Decreasing;
    assert FirstBadFrom([9, 7, 6, 1], Decreasing, 2) == Some(2);
    assert FirstBadFrom([9, 7, 6, 1], Decreasing, 1) == Some(2);
    assert FirstBadFrom([9, 7, 6, 1], Decreasing, 0) == Some(2);
    assert !IsSafe([9, 7, 6, 1], 1);
  }

  /** The fifth list. */
  lemma GoldenList5()
    ensures IsSafe([8, 6, 4, 4, 1], 0)
  {
    assert [8, 6, 4, 4, 1][..4] == [8, 6, 4, 4];
    assert [8, 6, 4, 4][..3] == [8, 6, 4];
    assert [8, 6, 4][..2] == [8, 6];
    assert [8, 6][..1] == [8];
    assert DirectionOf([8, 6, 4, 4, 1]) == Decreasing;
    assert FirstBadFrom([8, 6, 4, 4, 1], Decreasing, 2) == Some(2);
    assert FirstBadFrom([8, 6, 4, 4, 1], Decreasing, 1) == Some(2);
    assert FirstBadFrom([8, 6, 4, 4, 1], Decreasing, 0) == Some(2);
    assert Remove([8, 6, 4, 4, 1], 2) == [8, 6, 4, 1];
    assert Remove([8, 6, 4, 4, 1], 3) == [8, 6, 4, 1];
    assert [8, 6, 4, 1][..3] == [8, 6, 4];
    assert [8, 6, 4][..2] == [8, 6];
    assert [8, 6][..1] == [8];
    assert DirectionOf([8, 6, 4, 1]) == Decreasing;
    assert FirstBadFrom([8, 6, 4, 1], Decreasing, 3) == None;
    assert FirstBadFrom([8, 6, 4, 1], Decreasing, 2) == None;
    assert FirstBadFrom([8, 6, 4, 1], Decreasing, 1) == None;
    assert FirstBadFrom([8, 6, 4, 1], Decreasing, 0) == None;
    assert IsSafe([8, 6, 4, 1], 1);
  }

  /** The sixth list. */
  lemma GoldenList6()
    ensures IsSafe([1, 3, 6, 7, 9], 0)
  {
    assert [1, 3, 6, 7, 9][..4] == [1, 3, 6, 7];
    assert [1, 3, 6, 7][..3] == [1, 3, 6];
    assert [1, 3, 6][..2] == [1, 3];
    assert [1, 3][..1] == [1];
    assert DirectionOf([1, 3, 6, 7, 9]) == Increasing;
    assert FirstBadFrom([1, 3, 6, 7, 9], Increasing, 4) == None;
    assert FirstBadFrom([1, 3, 6, 7, 9], Increasing, 3) == None;
    assert FirstBadFrom([1, 3, 6, 7, 9], Increasing, 2) == None;
    assert FirstBadFrom([1, 3, 6, 7, 9], Increasing, 1) == None;
    assert FirstBadFrom([1, 3, 6, 7, 9], Increasing, 0) == None;
  }


  /** Counting safe reports one more report at a time. */
  lemma SafeCountSnoc(reports: seq<seq<int>>, r: seq<int>)
    ensures SafeCount(reports + [r]) == SafeCount(reports) + (if IsSafe(r, 0) then 1 else 0)
  {
    assert (reports + [r])[..|reports|] == reports;
  }

  /** Six reports with the verdicts safe, unsafe, unsafe, safe, safe, safe. */
  lemma {:induction false} CountFromVerdicts(l1: seq<int>, l2: seq<int>, l3: seq<int>,
                                             l4: seq<int>, l5: seq<int>, l6: seq<int>)
    requires IsSafe(l1, 0) && !IsSafe(l2, 0) && !IsSafe(l3, 0)
    requires IsSafe(l4, 0) && IsSafe(l5, 0) && IsSafe(l6, 0)
    ensures SafeCount([l1, l2, l3, l4, l5, l6]) == 4
  {
    SafeCountSnoc([], l1);
    assert [] + [l1] == [l1];
    SafeCountSnoc([l1], l2);
    assert [l1] + [l2] == [l1, l2];
    SafeCountSnoc([l1, l2], l3);
    assert [l1, l2] + [l3] == [l1, l2, l3];
    SafeCountSnoc([l1, l2, l3], l4);
    assert [l1, l2, l3] + [l4] == [l1, l2, l3, l4];
    SafeCountSnoc([l1, l2, l3, l4], l5);
    assert [l1, l2, l3, l4] + [l5] == [l1, l2, l3, l4, l5];
    SafeCountSnoc([l1, l2, l3, l4, l5], l6);
    assert [l1, l2, l3, l4, l5] + [l6] == [l1, l2, l3, l4, l5, l6];
  }

  /** The unit tests' six lists hold four safe reports. */
  lemma GoldenLists()
    ensures SafeCount([[7, 6, 4, 2, 1], [1, 2, 7, 8, 9], [9, 7, 6, 2, 1],
                       [1, 3, 2, 4, 5], [8, 6, 4, 4, 1], [1, 3, 6, 7, 9]]) == 4
  {
    GoldenList1();
    GoldenList2();
    GoldenList3();
    GoldenEarlyTurn();
    GoldenList5();
    GoldenList6();
    CountFromVerdicts([7, 6, 4, 2, 1], [1, 2, 7, 8, 9], [9, 7, 6, 2, 1],
                      [1, 3, 2, 4, 5], [8, 6, 4, 4, 1], [1, 3, 6, 7, 9]);
  }
}
