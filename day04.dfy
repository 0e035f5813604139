/**
 * Day 4: a word search over a grid of characters. Part 1 counts the ways
 * "XMAS" can be read from an `X` along the eight straight directions;
 * part 2 counts the X-shaped crossings of two "MAS" diagonals.
 * Positions are `(x, y)` with `data[y][x]`; rows may differ in length.
 */
module Day04 {
  import opened Wrappers

  type Grid = seq<seq<char>>

  /** `get_at_position((x, y))`: the character of row `y`, column `x`, if both exist. */
  function GetAtPosition(data: Grid, x: nat, y: nat): (r: Option<char>)
    ensures r.Some? <==> y < |data| && x < |data[y]|
    ensures r.Some? ==> r.value == data[y][x]
  {
    if y < |data| && x < |data[y]| then Some(data[y][x]) else None
  }

  /** `checked_move(origin, offset)`: the moved coordinate, unless it would be negative. */
  function CheckedMove(origin: nat, offset: int): (r: Option<nat>)
    ensures r.Some? <==> origin + offset >= 0
    ensures r.Some? ==> r.value == origin + offset
  {
    if offset > 0 then Some(origin + offset)
    else if origin >= -offset then Some(origin - (-offset))
    else None
  }

  /** The character at signed coordinates; nothing lies at a negative one. */
  function Cell(data: Grid, x: int, y: int): Option<char> {
    if x >= 0 && y >= 0 then GetAtPosition(data, x, y) else None
  }

  /** Reading `word` from `(x, y)` in steps of `(dx, dy)`. */
  predicate Spells(data: Grid, word: string, x: int, y: int, dx: int, dy: int) {
    forall k :: 0 <= k < |word| ==> Cell(data, x + k * dx, y + k * dy) == Some(word[k])
  }

  // ---------------------------------------------------------------- part 1

  const Xmas := "XMAS"

  /** The eight directions of `check_at_x`, in its order. */
  const Directions: seq<(int, int)> :=
    [(1, 0), (-1, 0), (0, -1), (0, 1), (-1, 1), (-1, -1), (1, -1), (1, 1)]

  /**
   * `check_direction(start, direction)`: walks from `start` comparing with
   * the target word until it is complete, a character differs, the grid
   * ends or a coordinate would turn negative.
   */
  method CheckDirection(data: Grid, target: string, start: (nat, nat), direction: (int, int))
    returns (found: bool)
    requires |target| >= 1
    ensures found == Spells(data, target, start.0, start.1, direction.0, direction.1)
  {
    var x, y := start.0, start.1;
    var dx, dy := direction.0, direction.1;
    var length := |target|;
    var i := 0;
    while true
      invariant 0 <= i < length
      invariant x == start.0 + i * dx && y == start.1 + i * dy
      invariant forall k :: 0 <= k < i ==> Cell(data, start.0 + k * dx, start.1 + k * dy) == Some(target[k])
      decreases length - i
    {
      var value := GetAtPosition(data, x, y);
      if value.None? || target[i] != value.value {
        assert Cell(data, start.0 + i * dx, start.1 + i * dy) != Some(target[i]);
        return false;
      }
      if i >= length - 1 {
        return true;
      }
      assert (i + 1) * dx == i * dx + dx && (i + 1) * dy == i * dy + dy;
      var nx := CheckedMove(x, dx);
      if nx.None? {
        assert Cell(data, start.0 + (i + 1) * dx, start.1 + (i + 1) * dy) != Some(target[i + 1]);
        return false;
      }
      x := nx.value;
      var ny := CheckedMove(y, dy);
      if ny.None? {
        assert Cell(data, start.0 + (i + 1) * dx, start.1 + (i + 1) * dy) != Some(target[i + 1]);
        return false;
      }
      y := ny.value;
      i := i + 1;
    }
  }

  /** How many of the first `n` directions spell "XMAS" from `(x, y)`. */
  function SpelledCount(data: Grid, x: nat, y: nat, n: nat): (r: nat)
    requires n <= |Directions|
    ensures r <= n
  {
    if n == 0 then 0
    else
      SpelledCount(data, x, y, n - 1)
      + (if Spells(data, Xmas, x, y, Directions[n - 1].0, Directions[n - 1].1) then 1 else 0)
  }

  /** `check_at_x((x, y))`: the number of directions that spell "XMAS" from here. */
  method CheckAtX(data: Grid, x: nat, y: nat) returns (matches: nat)
    ensures matches == SpelledCount(data, x, y, |Directions|)
    ensures matches <= 8
  {
    matches := 0;
    var i := 0;
    while i < |Directions|
      invariant i <= |Directions|
      invariant matches == SpelledCount(data, x, y, i)
    {
      var found := CheckDirection(data, Xmas, (x, y), Directions[i]);
      if found {
        matches := matches + 1;
      }
      i := i + 1;
    }
  }

  /** The eight directions are exactly the eight neighbouring offsets, each once. */
  lemma DirectionsAreNeighbours()
    ensures forall dx, dy :: (dx, dy) in Directions <==>
      -1 <= dx <= 1 && -1 <= dy <= 1 && (dx, dy) != (0, 0)
    ensures forall i, j :: 0 <= i < j < |Directions| ==> Directions[i] != Directions[j]
  {
    forall dx, dy | -1 <= dx <= 1 && -1 <= dy <= 1 && (dx, dy) != (0, 0)
      ensures (dx, dy) in Directions
    {
      if dx == 1 && dy == 0 { assert Directions[0] == (dx, dy); }
      else if dx == -1 && dy == 0 { assert Directions[1] == (dx, dy); }
      else if dx == 0 && dy == -1 { assert Directions[2] == (dx, dy); }
      else if dx == 0 && dy == 1 { assert Directions[3] == (dx, dy); }
      else if dx == -1 && dy == 1 { assert Directions[4] == (dx, dy); }
      else if dx == -1 && dy == -1 { assert Directions[5] == (dx, dy); }
      else if dx == 1 && dy == -1 { assert Directions[6] == (dx, dy); }
      else { assert Directions[7] == (dx, dy); }
    }
  }

  /** No direction spells "XMAS" from a cell that holds no `X`. */
  lemma {:induction false} SpelledCountAtOther(data: Grid, x: nat, y: nat, n: nat)
    requires n <= |Directions|
    requires GetAtPosition(data, x, y) != Some('X')
    ensures SpelledCount(data, x, y, n) == 0
  {
    if n > 0 {
      SpelledCountAtOther(data, x, y, n - 1);
      var (dx, dy) := Directions[n - 1];
      assert Cell(data, x + 0 * dx, y + 0 * dy) != Some(Xmas[0]);
    }
  }

  // ------------------------------------------------------------ grid loop

  /** What the cell `(x, y)` adds to the total: nothing when skipped, else the action. */
  function Contribution(data: Grid, skip: char -> bool, action: (nat, nat) -> int, x: nat, y: nat): int
    requires y < |data| && x < |data[y]|
  {
    if skip(data[y][x]) then 0 else action(x, y)
  }

  /** The total over the first `n` cells of row `y`. */
  function RowSum(data: Grid, y: nat, n: nat, skip: char -> bool, action: (nat, nat) -> int): int
    requires y < |data| && n <= |data[y]|
  {
    if n == 0 then 0 else RowSum(data, y, n - 1, skip, action) + Contribution(data, skip, action, n - 1, y)
  }

  /** The total over the first `m` rows. */
  function GridSum(data: Grid, m: nat, skip: char -> bool, action: (nat, nat) -> int): int
    requires m <= |data|
  {
    if m == 0 then 0 else GridSum(data, m - 1, skip, action) + RowSum(data, m - 1, |data[m - 1]|, skip, action)
  }

  /**
   * `loop_through_input(continue_condition, action)`: visits the rows in
   * order and each row's cells in order, summing `action` over the cells
   * whose character is not skipped.
   */
  method LoopThroughInput(data: Grid, skip: char -> bool, action: (nat, nat) -> int) returns (matches: int)
    ensures matches == GridSum(data, |data|, skip, action)
  {
    matches := 0;
    var y := 0;
    while y < |data|
      invariant y <= |data|
      invariant matches == GridSum(data, y, skip, action)
    {
      var row := data[y];
      var x := 0;
      while x < |row|
        invariant x <= |row|
        invariant matches == GridSum(data, y, skip, action) + RowSum(data, y, x, skip, action)
      {
        if !skip(row[x]) {
          matches := matches + action(x, y);
        }
        x := x + 1;
      }
      y := y + 1;
    }
  }

  /** Two loops that agree on every cell's contribution agree on the total. */
  lemma {:induction false} GridSumCongruent(data: Grid, m: nat, skip1: char -> bool, action1: (nat, nat) -> int,
                                            skip2: char -> bool, action2: (nat, nat) -> int)
    requires m <= |data|
    requires forall y: nat, x: nat :: y < |data| && x < |data[y]| ==>
      Contribution(data, skip1, action1, x, y) == Contribution(data, skip2, action2, x, y)
    ensures GridSum(data, m, skip1, action1) == GridSum(data, m, skip2, action2)
  {
    if m > 0 {
      GridSumCongruent(data, m - 1, skip1, action1, skip2, action2);
      RowSumCongruent(data, m - 1, |data[m - 1]|, skip1, action1, skip2, action2);
    }
  }

  lemma {:induction false} RowSumCongruent(data: Grid, y: nat, n: nat, skip1: char -> bool, action1: (nat, nat) -> int,
                                           skip2: char -> bool, action2: (nat, nat) -> int)
    requires y < |data| && n <= |data[y]|
    requires forall x: nat :: x < |data[y]| ==>
      Contribution(data, skip1, action1, x, y) == Contribution(data, skip2, action2, x, y)
    ensures RowSum(data, y, n, skip1, action1) == RowSum(data, y, n, skip2, action2)
  {
    if n > 0 {
      RowSumCongruent(data, y, n - 1, skip1, action1, skip2, action2);
    }
  }

  /** Skipping nothing. */
  predicate Never(c: char) {
    false
  }

  predicate NotX(c: char) {
    c != 'X'
  }

  /** `check_at_x` as the action of the loop. */
  function XmasAction(data: Grid): (nat, nat) -> int {
    (x: nat, y: nat) => SpelledCount(data, x, y, |Directions|)
  }

  /** Part 1's `parse`: `check_at_x` summed over the `X` cells. */
  method Part1Parse(data: Grid) returns (matches: int)
    ensures matches == GridSum(data, |data|, NotX, XmasAction(data))
    ensures matches == GridSum(data, |data|, Never, XmasAction(data))
  {
    matches := LoopThroughInput(data, NotX, XmasAction(data));
    Part1CountsEveryStart(data);
  }

  /**
   * Skipping the cells without an `X` loses nothing: the total is the
   * number of (start cell, direction) pairs that read "XMAS".
   */
  lemma Part1CountsEveryStart(data: Grid)
    ensures GridSum(data, |data|, NotX, XmasAction(data)) == GridSum(data, |data|, Never, XmasAction(data))
  {
    forall y: nat, x: nat | y < |data| && x < |data[y]|
      ensures Contribution(data, NotX, XmasAction(data), x, y) == Contribution(data, Never, XmasAction(data), x, y)
    {
      if data[y][x] != 'X' {
        SpelledCountAtOther(data, x, y, |Directions|);
      }
    }
    GridSumCongruent(data, |data|, NotX, XmasAction(data), Never, XmasAction(data));
  }

  // ---------------------------------------------------------------- part 2

  /**
   * `check_at_m((x, y))`: 1 when the five cells of the X with top-left
   * corner `(x, y)` exist, the centre is `A`, the top-right corner is `M`
   * or `S`, and each corner facing an `M` or `S` holds the other letter.
   */
  function CheckAtM(data: Grid, x: nat, y: nat): (r: int)
    ensures r == 0 || r == 1
  {
    var topLeft := GetAtPosition(data, x, y);
    var topRight := GetAtPosition(data, x + 2, y);
    var middle := GetAtPosition(data, x + 1, y + 1);
    var bottomLeft := GetAtPosition(data, x, y + 2);
    var bottomRight := GetAtPosition(data, x + 2, y + 2);
    if topLeft.None? || topRight.None? || middle.None? || bottomLeft.None? || bottomRight.None? then 0
    else if middle.value != 'A' then 0
    else if topRight.value != 'S' && topRight.value != 'M' then 0
    else if topLeft.value == 'S' && bottomRight.value != 'M' then 0
    else if topLeft.value == 'M' && bottomRight.value != 'S' then 0
    else if topRight.value == 'S' && bottomLeft.value != 'M' then 0
    else if topRight.value == 'M' && bottomLeft.value != 'S' then 0
    else 1
  }

  predicate IsMas(w: string) {
    w == "MAS" || w == "SAM"
  }

  /** Both diagonals of the 3x3 square with top-left corner `(x, y)` read "MAS" either way. */
  predicate IsXMas(data: Grid, x: nat, y: nat) {
    && y + 2 < |data| && x + 2 < |data[y]| && x + 1 < |data[y + 1]| && x + 2 < |data[y + 2]|
    && IsMas([data[y][x], data[y + 1][x + 1], data[y + 2][x + 2]])
    && IsMas([data[y][x + 2], data[y + 1][x + 1], data[y + 2][x]])
  }

  /** At a cell holding `M` or `S`, `check_at_m` recognises exactly the crossings. */
  lemma CheckAtMIsXMas(data: Grid, x: nat, y: nat)
    requires GetAtPosition(data, x, y) == Some('M') || GetAtPosition(data, x, y) == Some('S')
    ensures CheckAtM(data, x, y) == 1 <==> IsXMas(data, x, y)
  {
  }

  /** `check_at_m` leaves the top-left corner to its caller: here it is an `X`. */
  lemma CheckAtMNeedsTheFilter()
    ensures CheckAtM(["XXM", "XAX", "SXX"], 0, 0) == 1
    ensures !IsXMas(["XXM", "XAX", "SXX"], 0, 0)
  {
  }

  predicate NotMS(c: char) {
    c != 'M' && c != 'S'
  }

  function MasAction(data: Grid): (nat, nat) -> int {
    (x: nat, y: nat) => CheckAtM(data, x, y)
  }

  function XShapeAction(data: Grid): (nat, nat) -> int {
    (x: nat, y: nat) => if IsXMas(data, x, y) then 1 else 0
  }

  /** Part 2's `parse`: `check_at_m` summed over the `M` and `S` cells. */
  method Part2Parse(data: Grid) returns (matches: int)
    ensures matches == GridSum(data, |data|, NotMS, MasAction(data))
    ensures matches == GridSum(data, |data|, Never, XShapeAction(data))
  {
    matches := LoopThroughInput(data, NotMS, MasAction(data));
    Part2CountsCrossings(data);
  }

  /** The part 2 total is the number of X-shaped "MAS" crossings. */
  lemma Part2CountsCrossings(data: Grid)
    ensures GridSum(data, |data|, NotMS, MasAction(data)) == GridSum(data, |data|, Never, XShapeAction(data))
  {
    forall y: nat, x: nat | y < |data| && x < |data[y]|
      ensures Contribution(data, NotMS, MasAction(data), x, y) == Contribution(data, Never, XShapeAction(data), x, y)
    {
      if !NotMS(data[y][x]) {
        CheckAtMIsXMas(data, x, y);
      }
    }
    GridSumCongruent(data, |data|, NotMS, MasAction(data), Never, XShapeAction(data));
  }
}
