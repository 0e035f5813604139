/**
 * Day 6: a guard walks a grid. It steps forward while the cell ahead is
 * free, turns clockwise in front of an obstacle and stops when the cell
 * ahead is off the grid. Part 1 counts the cells it visits; the start of
 * part 2 searches the recorded turns for rectangles that an extra obstacle
 * could close.
 */
module Day06 {
  import opened Wrappers

  /** A cell; `y` grows with the line number of the input. */
  datatype Position = Position(x: int, y: int)

  datatype Direction = Up | Down | Left | Right {
    /** `Direction::turn`: a quarter turn clockwise. */
    function Turn(): (d: Direction)
      ensures d != this
    {
      match this
      case Up => Right
      case Right => Down
      case Down => Left
      case Left => Up
    }
  }

  /** The `(dx, dy)` table `look_ahead` and `move_ahead` subtract from the position. */
  function Offset(d: Direction): (int, int) {
    match d
    case Up => (0, 1)
    case Right => (-1, 0)
    case Down => (0, -1)
    case Left => (1, 0)
  }

  /** The neighbouring cell the guard faces, as the puzzle describes it. */
  function Ahead(p: Position, d: Direction): Position {
    match d
    case Up => Position(p.x, p.y - 1)
    case Right => Position(p.x + 1, p.y)
    case Down => Position(p.x, p.y + 1)
    case Left => Position(p.x - 1, p.y)
  }

  /** Four quarter turns give the direction back, and no fewer do. */
  lemma TurnCycle(d: Direction)
    ensures d.Turn().Turn().Turn().Turn() == d
    ensures d.Turn().Turn() != d && d.Turn().Turn().Turn() != d
  {
  }

  /** Turning rotates the offset by a quarter: `(dx, dy)` becomes `(-dy, dx)`. */
  lemma TurnRotatesOffset(d: Direction)
    ensures Offset(d.Turn()) == (-Offset(d).1, Offset(d).0)
  {
  }

  /** Two turns face the opposite way: the cell ahead is the one behind. */
  lemma TurnTwiceIsBehind(p: Position, d: Direction)
    ensures Ahead(Ahead(p, d), d.Turn().Turn()) == p
  {
  }

  /** The guard: a position and the direction it faces. */
  class Guard {
    var position: Position
    var direction: Direction

    constructor(position: Position, direction: Direction)
      ensures this.position == position && this.direction == direction
    {
      this.position := position;
      this.direction := direction;
    }

    /** `look_ahead`: the position minus the direction's offset, which is the cell faced. */
    function LookAhead(): (p: Position)
      reads this
      ensures p == Ahead(position, direction)
      ensures (p.x - position.x) * (p.x - position.x) + (p.y - position.y) * (p.y - position.y) == 1
    {
      var (dx, dy) := Offset(direction);
      Position(position.x - dx, position.y - dy)
    }

    /** `move_ahead`: one step onto the cell faced; the direction stays. */
    method MoveAhead()
      modifies this
      ensures position == old(LookAhead()) && direction == old(direction)
    {
      var (dx, dy) := Offset(direction);
      position := Position(position.x - dx, position.y - dy);
    }
  }

  // ------------------------------------------------------------- indexes

  /** `entry(key).or_insert_with(HashSet::new).insert(value)`. */
  function EntryInsert<K, V>(index: map<K, set<V>>, key: K, value: V): (r: map<K, set<V>>)
    ensures r.Keys == index.Keys + {key}
    ensures r[key] == (if key in index then index[key] else {}) + {value}
    ensures forall k :: k in index && k != key ==> r[k] == index[k]
  {
    index[key := (if key in index then index[key] else {}) + {value}]
  }

  /** `x_turns` and `y_turns` list exactly the turns of each column and row. */
  ghost predicate TurnIndex(turns: set<Position>, xTurns: map<int, set<Position>>, yTurns: map<int, set<Position>>) {
    && (forall p :: p in turns ==> p.x in xTurns && p in xTurns[p.x] && p.y in yTurns && p in yTurns[p.y])
    && (forall k, p :: k in xTurns && p in xTurns[k] ==> p.x == k && p in turns)
    && (forall k, p :: k in yTurns && p in yTurns[k] ==> p.y == k && p in turns)
    && (forall k :: k in xTurns ==> xTurns[k] != {})
    && (forall k :: k in yTurns ==> yTurns[k] != {})
  }

  /** `row_obstacles` and `col_obstacles` list exactly the obstacles of each row and column. */
  ghost predicate ObstacleIndex(obstacles: set<Position>, rows: map<int, set<int>>, cols: map<int, set<int>>) {
    && (forall p :: p in obstacles ==> p.y in rows && p.x in rows[p.y] && p.x in cols && p.y in cols[p.x])
    && (forall y, x :: y in rows && x in rows[y] ==> Position(x, y) in obstacles)
    && (forall x, y :: x in cols && y in cols[x] ==> Position(x, y) in obstacles)
  }

  /** Recording one more turn keeps the turn index exact. */
  lemma AddTurnIndex(turns: set<Position>, xTurns: map<int, set<Position>>, yTurns: map<int, set<Position>>, p: Position)
    requires TurnIndex(turns, xTurns, yTurns)
    ensures TurnIndex(turns + {p}, EntryInsert(xTurns, p.x, p), EntryInsert(yTurns, p.y, p))
  {
  }

  /** A row or column is a key of its index exactly when it holds a turn. */
  lemma IndexedTurns(turns: set<Position>, xTurns: map<int, set<Position>>, yTurns: map<int, set<Position>>, p: Position)
    ensures TurnIndex(turns, xTurns, yTurns) ==>
      && (p.y in yTurns <==> exists turn :: turn in turns && turn.y == p.y)
      && (p.x in xTurns <==> exists turn :: turn in turns && turn.x == p.x)
  {
    if TurnIndex(turns, xTurns, yTurns) {
      if p.y in yTurns {
        var turn :| turn in yTurns[p.y];
        assert turn in turns && turn.y == p.y;
      }
      if exists turn :: turn in turns && turn.y == p.y {
        var turn :| turn in turns && turn.y == p.y;
        assert turn.y in yTurns;
      }
      if p.x in xTurns {
        var turn :| turn in xTurns[p.x];
        assert turn in turns && turn.x == p.x;
      }
      if exists turn :: turn in turns && turn.x == p.x {
        var turn :| turn in turns && turn.x == p.x;
        assert turn.x in xTurns;
      }
    }
  }

  /** Indexing one more obstacle keeps the obstacle index exact. */
  lemma AddObstacleIndex(obstacles: set<Position>, rows: map<int, set<int>>, cols: map<int, set<int>>, p: Position)
    requires ObstacleIndex(obstacles, rows, cols)
    ensures ObstacleIndex(obstacles + {p}, EntryInsert(rows, p.y, p.x), EntryInsert(cols, p.x, p.y))
  {
  }

  // ---------------------------------------------------------------- patrol

  /** The grid the guard walks: its size and its obstacles. */
  datatype Board = Board(width: int, height: int, obstacles: set<Position>)

  /** `!is_out_of_bounds`. */
  predicate InBounds(b: Board, p: Position) {
    0 <= p.x < b.width && 0 <= p.y < b.height
  }

  /** What `move_guard` has recorded so far, and where the guard stands. */
  datatype Patrol = Patrol(
    position: Position,
    direction: Direction,
    visited: set<Position>,
    visitedDirectional: map<Position, Direction>,
    turns: set<Position>)

  /** A guard about to start, with nothing recorded. */
  function Start(position: Position, direction: Direction): Patrol {
    Patrol(position, direction, {}, map[], {})
  }

  /**
   * One pass of `move_guard`'s loop: record the cell and the direction held
   * there; then stop if the cell ahead is off the grid, turn (and record a
   * turn) if it is blocked, and step onto it otherwise.
   */
  function Step(b: Board, pt: Patrol): (r: (Patrol, bool))
    ensures r.0.visited == pt.visited + {pt.position}
    ensures r.0.visitedDirectional == pt.visitedDirectional[pt.position := pt.direction]
    ensures r.1 <==> !InBounds(b, Ahead(pt.position, pt.direction))
    ensures r.1 ==> r.0.position == pt.position && r.0.direction == pt.direction && r.0.turns == pt.turns
    ensures !r.1 && Ahead(pt.position, pt.direction) in b.obstacles ==>
      r.0.position == pt.position && r.0.direction == pt.direction.Turn() && r.0.turns == pt.turns + {pt.position}
    ensures !r.1 && Ahead(pt.position, pt.direction) !in b.obstacles ==>
      r.0.position == Ahead(pt.position, pt.direction) && r.0.direction == pt.direction && r.0.turns == pt.turns
  {
    var recorded := pt.(visited := pt.visited + {pt.position},
                        visitedDirectional := pt.visitedDirectional[pt.position := pt.direction]);
    var ahead := Ahead(pt.position, pt.direction);
    if !InBounds(b, ahead) then (recorded, true)
    else if ahead in b.obstacles then
      (recorded.(direction := pt.direction.Turn(), turns := pt.turns + {pt.position}), false)
    else (recorded.(position := ahead), false)
  }

  /**
   * `move_guard` with at most `fuel` passes of its loop: the patrol when the
   * guard leaves, or `None` when the fuel runs out first (the source loops
   * for ever on a guard that walks in a cycle).
   */
  function Walk(b: Board, pt: Patrol, fuel: nat): Option<Patrol>
    decreases fuel
  {
    if fuel == 0 then None
    else
      var (next, done) := Step(b, pt);
      if done then Some(next) else Walk(b, next, fuel - 1)
  }

  /**
   * What a patrol keeps true: a direction is recorded for exactly the
   * visited cells, every turn is a visited cell, and the guard and every
   * visited cell are on the grid and free of obstacles.
   */
  predicate PatrolInvariant(b: Board, pt: Patrol) {
    && pt.visitedDirectional.Keys == pt.visited
    && pt.turns <= pt.visited
    && InBounds(b, pt.position) && pt.position !in b.obstacles
    && (forall p :: p in pt.visited ==> InBounds(b, p) && p !in b.obstacles)
  }

  /** One pass keeps the invariant and only adds to what is recorded. */
  lemma StepKeepsInvariant(b: Board, pt: Patrol)
    requires PatrolInvariant(b, pt)
    ensures PatrolInvariant(b, Step(b, pt).0)
    ensures pt.visited + {pt.position} <= Step(b, pt).0.visited
    ensures pt.turns <= Step(b, pt).0.turns
  {
  }

  /**
   * A guard that starts on a free cell of the grid stays on free cells of
   * the grid: when the walk ends, the start and every cell visited before
   * are visited, a direction is recorded for exactly the visited cells and
   * every turn is a visited cell.
   */
  lemma {:induction false} WalkKeepsInvariant(b: Board, pt: Patrol, fuel: nat)
    requires PatrolInvariant(b, pt)
    requires Walk(b, pt, fuel).Some?
    ensures PatrolInvariant(b, Walk(b, pt, fuel).value)
    ensures pt.visited + {pt.position} <= Walk(b, pt, fuel).value.visited
    ensures pt.turns <= Walk(b, pt, fuel).value.turns
    decreases fuel
  {
    StepKeepsInvariant(b, pt);
    var (next, done) := Step(b, pt);
    if !done {
      WalkKeepsInvariant(b, next, fuel - 1);
    }
  }

  /** The walk from the start: the start is visited, and so is every turn. */
  lemma WalkFromStart(b: Board, start: Position, direction: Direction, fuel: nat)
    requires InBounds(b, start) && start !in b.obstacles
    requires Walk(b, Start(start, direction), fuel).Some?
    ensures var pt := Walk(b, Start(start, direction), fuel).value;
      && start in pt.visited
      && pt.visitedDirectional.Keys == pt.visited
      && pt.turns <= pt.visited
      && (forall p :: p in pt.visited ==> InBounds(b, p) && p !in b.obstacles)
  {
    WalkKeepsInvariant(b, Start(start, direction), fuel);
  }

  /** More fuel never changes a walk that ended. */
  lemma {:induction false} WalkMoreFuel(b: Board, pt: Patrol, fuel: nat, more: nat)
    requires Walk(b, pt, fuel).Some? && fuel <= more
    ensures Walk(b, pt, more) == Walk(b, pt, fuel)
    decreases fuel
  {
    var (next, done) := Step(b, pt);
    if !done {
      WalkMoreFuel(b, next, fuel - 1, more - 1);
    }
  }

  // ------------------------------------------------------------------- map

  /** The grid with everything `move_guard` records on it. */
  class Map {
    var height: int
    var width: int
    var obstacles: set<Position>
    var visited: set<Position>
    var visitedDirectional: map<Position, Direction>
    var startPosition: Position
    var turns: set<Position>
    var xTurns: map<int, set<Position>>
    var yTurns: map<int, set<Position>>
    var rowObstacles: map<int, set<int>>
    var colObstacles: map<int, set<int>>

    /** The indexes agree with the turns and the obstacles. */
    ghost predicate Valid()
      reads this
    {
      TurnIndex(turns, xTurns, yTurns) && ObstacleIndex(obstacles, rowObstacles, colObstacles)
    }

    /** The size and obstacles. */
    function Grid(): Board
      reads this
    {
      Board(width, height, obstacles)
    }

    /** What is recorded, with the guard's place. */
    ghost function PatrolWith(guard: Guard): Patrol
      reads this, guard
    {
      Patrol(guard.position, guard.direction, visited, visitedDirectional, turns)
    }

    /** `Map::new`: nothing visited yet; the obstacles indexed by row and by column. */
    constructor(height: int, width: int, obstacles: set<Position>, startPosition: Position)
      ensures this.height == height && this.width == width && this.obstacles == obstacles
      ensures this.startPosition == startPosition
      ensures visited == {} && visitedDirectional == map[] && turns == {}
      ensures Valid()
    {
      var rows: map<int, set<int>> := map[];
      var cols: map<int, set<int>> := map[];
      var rest := obstacles;
      while rest != {}
        invariant rest <= obstacles
        invariant ObstacleIndex(obstacles - rest, rows, cols)
        decreases |rest|
      {
        var obstacle :| obstacle in rest;
        AddObstacleIndex(obstacles - rest, rows, cols, obstacle);
        rows := EntryInsert(rows, obstacle.y, obstacle.x);
        cols := EntryInsert(cols, obstacle.x, obstacle.y);
        assert obstacles - (rest - {obstacle}) == (obstacles - rest) + {obstacle};
        rest := rest - {obstacle};
      }
      this.height := height;
      this.width := width;
      this.obstacles := obstacles;
      visited := {};
      visitedDirectional := map[];
      this.startPosition := startPosition;
      turns := {};
      xTurns := map[];
      yTurns := map[];
      rowObstacles := rows;
      colObstacles := cols;
    }

    /** `add_turn`: one more turn, in the set and in both indexes. */
    method AddTurn(position: Position)
      modifies this
      ensures turns == old(turns) + {position}
      ensures xTurns == EntryInsert(old(xTurns), position.x, position)
      ensures yTurns == EntryInsert(old(yTurns), position.y, position)
      ensures old(Valid()) ==> Valid()
      ensures height == old(height) && width == old(width) && obstacles == old(obstacles)
      ensures visited == old(visited) && visitedDirectional == old(visitedDirectional)
      ensures startPosition == old(startPosition)
      ensures rowObstacles == old(rowObstacles) && colObstacles == old(colObstacles)
    {
      if Valid() {
        AddTurnIndex(turns, xTurns, yTurns, position);
      }
      turns := turns + {position};
      xTurns := EntryInsert(xTurns, position.x, position);
      yTurns := EntryInsert(yTurns, position.y, position);
    }

    /** `is_out_of_bounds`: off the grid. */
    function IsOutOfBounds(position: Position): (r: bool)
      reads this
      ensures r <==> !InBounds(Grid(), position)
    {
      position.x < 0 || position.x >= width || position.y < 0 || position.y >= height
    }

    /** `is_blocked`: an obstacle, which the row index lists too. */
    function IsBlocked(position: Position): (r: bool)
      reads this
      ensures r <==> position in Grid().obstacles
      ensures Valid() ==> (r <==> position.y in rowObstacles && position.x in rowObstacles[position.y])
      ensures Valid() ==> (r <==> position.x in colObstacles && position.y in colObstacles[position.x])
    {
      position in obstacles
    }

    /** `turn_in_same_row_and_col`: some turn shares the row and some turn the column. */
    function TurnInSameRowAndCol(position: Position): (r: bool)
      reads this
      ensures Valid() ==> (r <==> position.y in yTurns && position.x in xTurns)
    {
      IndexedTurns(turns, xTurns, yTurns, position);
      (exists turn :: turn in turns && turn.y == position.y) && (exists turn :: turn in turns && turn.x == position.x)
    }

    /** `turns_in_same_row`: the turns of the position's row, which `y_turns` holds. */
    function TurnsInSameRow(position: Position): (r: set<Position>)
      reads this
      ensures r <= turns
      ensures Valid() ==> r == if position.y in yTurns then yTurns[position.y] else {}
    {
      set turn | turn in turns && turn.y == position.y
    }

    /** `turns_in_same_col`: the turns of the position's column, which `x_turns` holds. */
    function TurnsInSameCol(position: Position): (r: set<Position>)
      reads this
      ensures r <= turns
      ensures Valid() ==> r == if position.x in xTurns then xTurns[position.x] else {}
    {
      set turn | turn in turns && turn.x == position.x
    }
  }

  /**
   * `move_guard`, with at most `fuel` passes of its loop: it records on the
   * map exactly what the walk records and returns the number of visited
   * cells, or `None` when the fuel runs out. The indexes stay exact and the
   * grid is untouched.
   */
  method MoveGuard(m: Map, guard: Guard, fuel: nat) returns (r: Option<nat>)
    requires m.Valid()
    modifies m, guard
    ensures m.Valid()
    ensures m.Grid() == old(m.Grid()) && m.startPosition == old(m.startPosition)
    ensures m.rowObstacles == old(m.rowObstacles) && m.colObstacles == old(m.colObstacles)
    ensures r.None? <==> Walk(old(m.Grid()), old(m.PatrolWith(guard)), fuel).None?
    ensures r.Some? ==>
      && m.PatrolWith(guard) == Walk(old(m.Grid()), old(m.PatrolWith(guard)), fuel).value
      && r.value == |m.visited|
  {
    ghost var b := m.Grid();
    ghost var w := Walk(b, m.PatrolWith(guard), fuel);
    var steps := fuel;
    while steps > 0
      invariant m.Valid()
      invariant m.Grid() == b && m.startPosition == old(m.startPosition)
      invariant m.rowObstacles == old(m.rowObstacles) && m.colObstacles == old(m.colObstacles)
      invariant Walk(b, m.PatrolWith(guard), steps) == w
      decreases steps
    {
      var leaving := GuardStep(m, guard);
      if leaving {
        return Some(|m.visited|);
      }
      steps := steps - 1;
    }
    return None;
  }

  /**
   * One pass of `move_guard`'s loop, as `Step` specifies it: record the
   * guard's cell and direction, then report leaving, turn, or move ahead.
   */
  method GuardStep(m: Map, guard: Guard) returns (leaving: bool)
    requires m.Valid()
    modifies m, guard
    ensures m.Valid()
    ensures m.Grid() == old(m.Grid()) && m.startPosition == old(m.startPosition)
    ensures m.rowObstacles == old(m.rowObstacles) && m.colObstacles == old(m.colObstacles)
    ensures (m.PatrolWith(guard), leaving) == Step(old(m.Grid()), old(m.PatrolWith(guard)))
  {
    m.visited := m.visited + {guard.position};
    m.visitedDirectional := m.visitedDirectional[guard.position := guard.direction];
    var positionAhead := guard.LookAhead();
    if m.IsOutOfBounds(positionAhead) {
      return true;
    }
    if m.IsBlocked(positionAhead) {
      guard.direction := guard.direction.Turn();
      m.AddTurn(guard.position);
    } else {
      guard.MoveAhead();
    }
    return false;
  }

  // ---------------------------------------------------------- fourth turn

  /** The cells `(x, y)` for `y` in `ys`, in order. */
  function Column(x: int, ys: seq<int>): (r: seq<Position>)
    ensures |r| == |ys|
    ensures forall j :: 0 <= j < |ys| ==> r[j] == Position(x, ys[j])
  {
    if ys == [] then [] else Column(x, ys[..|ys| - 1]) + [Position(x, ys[|ys| - 1])]
  }

  /** The cells `(x, y)`, `x` in `xs` in the outer order and `y` in `ys` in the inner one. */
  function Candidates(xs: seq<int>, ys: seq<int>): seq<Position> {
    if xs == [] then [] else Candidates(xs[..|xs| - 1], ys) + Column(xs[|xs| - 1], ys)
  }

  /** Candidates are exactly the combinations of an `x` of `xs` and a `y` of `ys`. */
  lemma {:induction false} CandidatesAre(xs: seq<int>, ys: seq<int>, p: Position)
    ensures p in Candidates(xs, ys) <==> p.x in xs && p.y in ys
  {
    if xs != [] {
      var init := xs[..|xs| - 1];
      CandidatesAre(init, ys, p);
      assert xs == init + [xs[|xs| - 1]];
      if p in Column(xs[|xs| - 1], ys) {
        var j :| 0 <= j < |ys| && Column(xs[|xs| - 1], ys)[j] == p;
      }
      if p.x == xs[|xs| - 1] && p.y in ys {
        var j :| 0 <= j < |ys| && ys[j] == p.y;
        assert Column(xs[|xs| - 1], ys)[j] == p;
      }
    }
  }

  /** The first cell of `cells` that is none of `taken`. */
  function FirstNotIn(cells: seq<Position>, taken: set<Position>): (r: Option<Position>)
    ensures r.Some? ==> r.value in cells && r.value !in taken
    ensures r.None? <==> forall p :: p in cells ==> p in taken
  {
    if cells == [] then None
    else if cells[0] !in taken then Some(cells[0])
    else
      var r := FirstNotIn(cells[1..], taken);
      assert forall p :: p in cells ==> p == cells[0] || p in cells[1..];
      r
  }

  /** The first cell not taken is the one at `k` when every cell before it is taken. */
  lemma {:induction false} FirstNotInAt(cells: seq<Position>, taken: set<Position>, k: nat)
    requires k < |cells| && cells[k] !in taken
    requires forall j :: 0 <= j < k ==> cells[j] in taken
    ensures FirstNotIn(cells, taken) == Some(cells[k])
  {
    if k > 0 {
      FirstNotInAt(cells[1..], taken, k - 1);
    }
  }

  /** With three `y`s, the candidate `3 * i + j` is `(xs[i], ys[j])`. */
  lemma {:induction false} CandidateAt(xs: seq<int>, ys: seq<int>, i: nat, j: nat)
    requires |ys| == 3 && i < |xs| && j < 3
    ensures |Candidates(xs, ys)| == 3 * |xs|
    ensures Candidates(xs, ys)[3 * i + j] == Position(xs[i], ys[j])
  {
    var init := xs[..|xs| - 1];
    if i < |init| {
      CandidateAt(init, ys, i, j);
    } else if init != [] {
      CandidateAt(init, ys, 0, 0);
    }
  }

  /** What `find_fourth_turn` computes: the first combination that is not one of the three turns. */
  function FourthTurn(turn1: Position, turn2: Position, turn3: Position): Option<Position> {
    FirstNotIn(Candidates([turn1.x, turn2.x, turn3.x], [turn1.y, turn2.y, turn3.y]), {turn1, turn2, turn3})
  }

  /**
   * `find_fourth_turn`: `x` from the three turns in the outer loop, `y` in
   * the inner one; the first cell that is none of the turns.
   */
  method FindFourthTurn(turn1: Position, turn2: Position, turn3: Position) returns (r: Option<Position>)
    ensures r == FourthTurn(turn1, turn2, turn3)
  {
    var xCandidates := [turn1.x, turn2.x, turn3.x];
    var yCandidates := [turn1.y, turn2.y, turn3.y];
    ghost var cells := Candidates(xCandidates, yCandidates);
    ghost var taken := {turn1, turn2, turn3};
    CandidateAt(xCandidates, yCandidates, 0, 0);
    var i := 0;
    while i < 3
      invariant i <= 3 && |cells| == 9
      invariant forall k :: 0 <= k < 3 * i ==> cells[k] in taken
    {
      var x := xCandidates[i];
      var j := 0;
      while j < 3
        invariant j <= 3 && |cells| == 9
        invariant forall k :: 0 <= k < 3 * i + j ==> cells[k] in taken
      {
        var y := yCandidates[j];
        var fourthTurn := Position(x, y);
        CandidateAt(xCandidates, yCandidates, i, j);
        if fourthTurn != turn1 && fourthTurn != turn2 && fourthTurn != turn3 {
          FirstNotInAt(cells, taken, 3 * i + j);
          return Some(fourthTurn);
        }
        j := j + 1;
      }
      i := i + 1;
    }
    return None;
  }

  /**
   * The fourth turn is none of the three, has the column of one of them and
   * the row of one of them; there is none exactly when every such cell is
   * one of the three.
   */
  lemma FourthTurnFacts(turn1: Position, turn2: Position, turn3: Position)
    ensures var r := FourthTurn(turn1, turn2, turn3);
      r.Some? ==>
        && r.value != turn1 && r.value != turn2 && r.value != turn3
        && r.value.x in [turn1.x, turn2.x, turn3.x] && r.value.y in [turn1.y, turn2.y, turn3.y]
    ensures FourthTurn(turn1, turn2, turn3).None? <==>
      forall x, y :: x in [turn1.x, turn2.x, turn3.x] && y in [turn1.y, turn2.y, turn3.y] ==>
        Position(x, y) in {turn1, turn2, turn3}
  {
    var xs, ys := [turn1.x, turn2.x, turn3.x], [turn1.y, turn2.y, turn3.y];
    var r := FourthTurn(turn1, turn2, turn3);
    if r.Some? {
      CandidatesAre(xs, ys, r.value);
    }
    forall x, y | x in xs && y in ys
      ensures Position(x, y) in Candidates(xs, ys)
    {
      CandidatesAre(xs, ys, Position(x, y));
    }
  }

  /**
   * The case `is_valid_obstacle` asks about: a second turn in the row of the
   * first and a third in its column. The fourth turn is then the corner that
   * completes the rectangle.
   */
  lemma FourthTurnCompletesRectangle(turn1: Position, turn2: Position, turn3: Position)
    requires turn2.y == turn1.y && turn3.x == turn1.x && turn1 != turn2 && turn1 != turn3
    ensures FourthTurn(turn1, turn2, turn3) == Some(Position(turn2.x, turn3.y))
  {
    var xs, ys := [turn1.x, turn2.x, turn3.x], [turn1.y, turn2.y, turn3.y];
    var cells := Candidates(xs, ys);
    CandidateAt(xs, ys, 0, 0);
    CandidateAt(xs, ys, 0, 1);
    CandidateAt(xs, ys, 0, 2);
    CandidateAt(xs, ys, 1, 0);
    CandidateAt(xs, ys, 1, 1);
    CandidateAt(xs, ys, 1, 2);
    FirstNotInAt(cells, {turn1, turn2, turn3}, 5);
  }

  /**
   * `calculate_obstacle_position`: the neighbour of the fourth turn in the
   * direction held there, by the function's own table; `None` for a cell
   * with no recorded direction.
   */
  function ObstaclePosition(fourthTurn: Position, visitedDirectional: map<Position, Direction>): (r: Option<Position>)
    ensures r.None? <==> fourthTurn !in visitedDirectional
  {
    if fourthTurn !in visitedDirectional then None
    else
      match visitedDirectional[fourthTurn]
      case Up => Some(Position(fourthTurn.x, fourthTurn.y + 1))
      case Right => Some(Position(fourthTurn.x + 1, fourthTurn.y))
      case Down => Some(Position(fourthTurn.x, fourthTurn.y - 1))
      case Left => Some(Position(fourthTurn.x - 1, fourthTurn.y))
  }

  /**
   * The table of `calculate_obstacle_position` agrees with `look_ahead`
   * sideways but not vertically: for `Up` and `Down` it gives the cell
   * behind the guard.
   */
  lemma ObstacleBesideOrBehind(fourthTurn: Position, visitedDirectional: map<Position, Direction>)
    requires fourthTurn in visitedDirectional
    ensures var d := visitedDirectional[fourthTurn];
      ObstaclePosition(fourthTurn, visitedDirectional) ==
        Some(if d == Left || d == Right then Ahead(fourthTurn, d) else Ahead(fourthTurn, d.Turn().Turn()))
  {
  }

  /** A turn shares the row and one shares the column exactly when neither filtered set is empty. */
  lemma RowAndColFromSets(m: Map, position: Position)
    requires m.Valid()
    ensures m.TurnInSameRowAndCol(position) <==> m.TurnsInSameRow(position) != {} && m.TurnsInSameCol(position) != {}
  {
    IndexedTurns(m.turns, m.xTurns, m.yTurns, position);
  }

  // --------------------------------------------------------- intersections

  type Triple = (Position, Position, Position)

  /**
   * A triple `is_valid_obstacle` collects: a turn, another turn in its row
   * and a third turn in its column, all three different.
   */
  predicate IsIntersection(turns: set<Position>, tr: Triple) {
    && tr.0 in turns && tr.1 in turns && tr.2 in turns
    && tr.1.y == tr.0.y && tr.2.x == tr.0.x
    && tr.0 != tr.1 && tr.0 != tr.2 && tr.1 != tr.2
  }

  /** All such triples. */
  function Intersections(turns: set<Position>): (r: set<Triple>)
    ensures forall tr :: tr in r <==> IsIntersection(turns, tr)
  {
    set t1, t2, t3 | t1 in turns && t2 in turns && t3 in turns && IsIntersection(turns, (t1, t2, t3)) :: (t1, t2, t3)
  }

  /** The innermost loop: `(turn, turn2, turn3)` for every `turn3` of the column that differs from both. */
  method ThirdTurns(turn: Position, turn2: Position, sameCol: set<Position>) returns (s: set<Triple>)
    ensures forall tr :: tr in s <==>
      tr.0 == turn && tr.1 == turn2 && tr.2 in sameCol && turn != tr.2 && turn2 != tr.2
  {
    s := {};
    var rest := sameCol;
    while rest != {}
      invariant rest <= sameCol
      invariant forall tr :: tr in s <==>
        tr.0 == turn && tr.1 == turn2 && tr.2 in sameCol - rest && turn != tr.2 && turn2 != tr.2
      decreases |rest|
    {
      var turn3 :| turn3 in rest;
      if turn != turn3 && turn2 != turn3 {
        s := s + {(turn, turn2, turn3)};
      }
      rest := rest - {turn3};
    }
  }

  /** The two inner loops: every `turn2` of the row other than `turn`, with its third turns. */
  method TriplesFrom(turn: Position, sameRow: set<Position>, sameCol: set<Position>) returns (s: set<Triple>)
    ensures forall tr :: tr in s <==>
      tr.0 == turn && tr.1 in sameRow && tr.2 in sameCol && turn != tr.1 && turn != tr.2 && tr.1 != tr.2
  {
    s := {};
    var rest := sameRow;
    while rest != {}
      invariant rest <= sameRow
      invariant forall tr :: tr in s <==>
        tr.0 == turn && tr.1 in sameRow - rest && tr.2 in sameCol && turn != tr.1 && turn != tr.2 && tr.1 != tr.2
      decreases |rest|
    {
      var turn2 :| turn2 in rest;
      if turn != turn2 {
        var thirds := ThirdTurns(turn, turn2, sameCol);
        s := s + thirds;
      }
      rest := rest - {turn2};
    }
  }

  /**
   * The first half of `is_valid_obstacle`: for every turn, its row from
   * `y_turns` and its column from `x_turns`. Both lookups succeed because the
   * indexes are exact, and the triples collected are exactly the intersections.
   */
  method PossibleIntersections(m: Map) returns (s: set<Triple>)
    requires m.Valid()
    ensures s == Intersections(m.turns)
  {
    s := {};
    var rest := m.turns;
    while rest != {}
      invariant rest <= m.turns
      invariant forall tr :: tr in s <==> tr.0 !in rest && IsIntersection(m.turns, tr)
      decreases |rest|
    {
      var turn :| turn in rest;
      var sameRow := m.yTurns[turn.y];
      var sameCol := m.xTurns[turn.x];
      var triples := TriplesFrom(turn, sameRow, sameCol);
      s := s + triples;
      rest := rest - {turn};
    }
  }

  /**
   * Whether a triple counts: it has a fourth turn, a direction was recorded
   * there, and the obstacle cell beside it is on the grid and is not the start.
   */
  predicate Counts(b: Board, visitedDirectional: map<Position, Direction>, startPosition: Position, tr: Triple) {
    match FourthTurn(tr.0, tr.1, tr.2)
    case None => false
    case Some(fourthTurn) =>
      match ObstaclePosition(fourthTurn, visitedDirectional)
      case None => false
      case Some(obstacle) => InBounds(b, obstacle) && obstacle != startPosition
  }

  /**
   * For a collected triple, what decides whether it counts is the corner
   * completing its rectangle: a direction recorded there, and the obstacle
   * cell beside it on the grid and not the start.
   */
  lemma CountsAtCorner(b: Board, visitedDirectional: map<Position, Direction>, startPosition: Position,
                       turns: set<Position>, tr: Triple)
    requires IsIntersection(turns, tr)
    ensures var corner := Position(tr.1.x, tr.2.y);
      Counts(b, visitedDirectional, startPosition, tr) <==>
        && corner in visitedDirectional
        && var obstacle := ObstaclePosition(corner, visitedDirectional).value;
           InBounds(b, obstacle) && obstacle != startPosition
  {
    FourthTurnCompletesRectangle(tr.0, tr.1, tr.2);
  }

  /** The triples of `s` that count. */
  function Counted(s: set<Triple>, b: Board, visitedDirectional: map<Position, Direction>, startPosition: Position): (r: set<Triple>)
    ensures r <= s
  {
    set tr | tr in s && Counts(b, visitedDirectional, startPosition, tr)
  }

  /**
   * `is_valid_obstacle`: the number of collected triples that count (the
   * source prints it), and `true`, its result whatever the position.
   */
  method IsValidObstacle(position: Position, m: Map) returns (valid: bool, sum: nat)
    requires m.Valid()
    ensures valid
    ensures sum == |Counted(Intersections(m.turns), m.Grid(), m.visitedDirectional, m.startPosition)|
  {
    var possibleIntersections := PossibleIntersections(m);
    ghost var b, vd, start := m.Grid(), m.visitedDirectional, m.startPosition;
    sum := 0;
    var rest := possibleIntersections;
    while rest != {}
      invariant rest <= possibleIntersections
      invariant sum == |Counted(possibleIntersections - rest, b, vd, start)|
      decreases |rest|
    {
      var intersection :| intersection in rest;
      var (turn1, turn2, turn3) := intersection;
      var counts := false;
      var turn4 := FindFourthTurn(turn1, turn2, turn3);
      if turn4.Some? {
        var obstacle := ObstaclePosition(turn4.value, m.visitedDirectional);
        if obstacle.Some? {
          if !m.IsOutOfBounds(obstacle.value) && obstacle.value != m.startPosition {
            counts := true;
          }
        }
      }
      assert counts == Counts(b, vd, start, intersection);
      CountedStep(possibleIntersections, rest, intersection, b, vd, start);
      if counts {
        sum := sum + 1;
      }
      rest := rest - {intersection};
    }
    assert possibleIntersections - rest == possibleIntersections;
    valid := true;
  }

  /** Moving one triple from the rest to the done part of the count. */
  lemma CountedStep(all: set<Triple>, rest: set<Triple>, tr: Triple,
                    b: Board, visitedDirectional: map<Position, Direction>, startPosition: Position)
    requires rest <= all && tr in rest
    ensures |Counted(all - (rest - {tr}), b, visitedDirectional, startPosition)| ==
      |Counted(all - rest, b, visitedDirectional, startPosition)| +
      (if Counts(b, visitedDirectional, startPosition, tr) then 1 else 0)
  {
    var before := Counted(all - rest, b, visitedDirectional, startPosition);
    var after := Counted(all - (rest - {tr}), b, visitedDirectional, startPosition);
    if Counts(b, visitedDirectional, startPosition, tr) {
      assert after == before + {tr};
    } else {
      assert after == before;
    }
  }

  /** `has_t_intersection`: the two sets of turns share a cell. */
  method HasTIntersection(turnsInRow: set<Position>, turnsInCol: set<Position>) returns (r: bool)
    ensures r <==> turnsInRow * turnsInCol != {}
  {
    var rows := turnsInRow;
    while rows != {}
      invariant rows <= turnsInRow
      invariant forall p :: p in turnsInRow && p !in rows ==> p !in turnsInCol
      decreases |rows|
    {
      var rowTurn :| rowTurn in rows;
      var cols := turnsInCol;
      while cols != {}
        invariant cols <= turnsInCol
        invariant rowTurn in turnsInCol ==> rowTurn in cols
        decreases |cols|
      {
        var colTurn :| colTurn in cols;
        if rowTurn.x == colTurn.x && rowTurn.y == colTurn.y {
          assert rowTurn in turnsInRow * turnsInCol;
          return true;
        }
        cols := cols - {colTurn};
      }
      rows := rows - {rowTurn};
    }
    assert forall p :: p !in turnsInRow * turnsInCol;
    return false;
  }

  // ----------------------------------------------------------------- input

  /** The guard as `print_state` draws it. */
  function Glyph(d: Direction): char {
    match d
    case Up => '^'
    case Right => '>'
    case Down => 'v'
    case Left => '<'
  }

  /** The direction a guard glyph shows; the table `read_input` evidently intends. */
  function GlyphDirection(c: char): (r: Option<Direction>)
    ensures r.Some? ==> Glyph(r.value) == c
    ensures r.None? <==> c !in {'^', '>', 'v', '<'}
  {
    match c
    case '^' => Some(Up)
    case '>' => Some(Right)
    case 'v' => Some(Down)
    case '<' => Some(Left)
    case _ => None
  }

  /** `read_input`'s table as written: `'>'` is read as `Left` and `'<'` as `Right`. */
  function GlyphDirectionAsWritten(c: char): (r: Option<Direction>)
    ensures r.None? <==> c !in {'^', '>', 'v', '<'}
    ensures c == '^' ==> r == Some(Up)
    ensures c == 'v' ==> r == Some(Down)
    ensures c == '>' ==> r == Some(Left)
    ensures c == '<' ==> r == Some(Right)
  {
    match c
    case '^' => Some(Up)
    case '>' => Some(Left)
    case 'v' => Some(Down)
    case '<' => Some(Right)
    case _ => None
  }

  /** Reading a drawn guard gives back its direction. */
  lemma GlyphRoundTrip(d: Direction)
    ensures GlyphDirection(Glyph(d)) == Some(d)
  {
  }

  /**
   * As written, a guard drawn facing right is read as facing left (and the
   * other way round): its first step from `p` goes to `x - 1`, not `x + 1`.
   */
  lemma GlyphSwappedAsWritten(p: Position)
    ensures GlyphDirectionAsWritten(Glyph(Right)) == Some(Left)
    ensures GlyphDirectionAsWritten(Glyph(Left)) == Some(Right)
    ensures Ahead(p, GlyphDirectionAsWritten('>').value) == Position(p.x - 1, p.y)
    ensures Ahead(p, GlyphDirection('>').value) == Position(p.x + 1, p.y)
  {
  }

  /**
   * A table from characters to guard directions, recognising exactly the
   * four guard glyphs. `read_input` as written uses `GlyphDirectionAsWritten`;
   * `GlyphDirection` is the corrected one.
   */
  type GlyphTable = char -> Option<Direction>

  predicate GuardTable(glyphs: GlyphTable) {
    forall c :: glyphs(c).Some? <==> c == '^' || c == '>' || c == 'v' || c == '<'
  }

  /** Both tables recognise exactly the four guard glyphs. */
  lemma GuardTables()
    ensures GuardTable(GlyphDirectionAsWritten) && GuardTable(GlyphDirection)
  {
    forall c
      ensures GlyphDirectionAsWritten(c).Some? <==> c == '^' || c == '>' || c == 'v' || c == '<'
      ensures GlyphDirection(c).Some? <==> c == '^' || c == '>' || c == 'v' || c == '<'
    {
    }
  }

  /** What `read_input` has gathered so far. */
  datatype Scan = Scan(width: int, obstacles: set<Position>, guardPosition: Position, guardDirection: Direction)

  const NoScan := Scan(0, {}, Position(0, 0), Up)

  /** A character `read_input` accepts. */
  predicate Known(glyphs: GlyphTable, c: char) {
    c == '#' || c == '.' || glyphs(c).Some?
  }

  /** One character at `(x, y)`: an obstacle, the guard, a free cell, or a panic. */
  function ScanCell(glyphs: GlyphTable, sc: Scan, c: char, x: int, y: int): Result<Scan> {
    if c == '#' then Ok(sc.(obstacles := sc.obstacles + {Position(x, y)}))
    else if glyphs(c).Some? then Ok(sc.(guardPosition := Position(x, y), guardDirection := glyphs(c).value))
    else if c == '.' then Ok(sc)
    else Panic("Unknown char")
  }

  /** The first `n` characters of line `y`, left to right. */
  function ScanLine(glyphs: GlyphTable, sc: Scan, line: string, y: int, n: nat): Result<Scan>
    requires n <= |line|
  {
    if n == 0 then Ok(sc)
    else
      match ScanLine(glyphs, sc, line, y, n - 1)
      case Ok(next) => ScanCell(glyphs, next, line[n - 1], n - 1, y)
      case Panic(reason) => Panic(reason)
  }

  /** The first `n` lines, top to bottom; each sets the width to its own length. */
  function ScanLines(glyphs: GlyphTable, lines: seq<string>, n: nat): Result<Scan>
    requires n <= |lines|
  {
    if n == 0 then Ok(NoScan)
    else
      match ScanLines(glyphs, lines, n - 1)
      case Ok(sc) => ScanLine(glyphs, sc.(width := |lines[n - 1]|), lines[n - 1], n - 1, |lines[n - 1]|)
      case Panic(reason) => Panic(reason)
  }

  /** The inner `for_each` of `read_input`: one line. */
  method ReadRow(glyphs: GlyphTable, sc: Scan, line: string, y: int) returns (r: Result<Scan>)
    requires GuardTable(glyphs)
    ensures r == ScanLine(glyphs, sc, line, y, |line|)
  {
    var width, obstacles, guardPosition, guardDirection := sc.width, sc.obstacles, sc.guardPosition, sc.guardDirection;
    var x := 0;
    while x < |line|
      invariant x <= |line|
      invariant ScanLine(glyphs, sc, line, y, x) == Ok(Scan(width, obstacles, guardPosition, guardDirection))
    {
      var c := line[x];
      if c == '#' {
        obstacles := obstacles + {Position(x, y)};
      } else if c == '^' || c == '>' || c == 'v' || c == '<' {
        guardPosition := Position(x, y);
        guardDirection := glyphs(c).value;
      } else if c != '.' {
        ScanLinePanicStays(glyphs, sc, line, y, x + 1);
        return Panic("Unknown char");
      }
      x := x + 1;
    }
    r := Ok(Scan(width, obstacles, guardPosition, guardDirection));
  }

  /** The outer `for_each` of `read_input`: every line. */
  method ReadGrid(glyphs: GlyphTable, lines: seq<string>) returns (r: Result<Scan>)
    requires GuardTable(glyphs)
    ensures r == ScanLines(glyphs, lines, |lines|)
  {
    var sc := NoScan;
    var y := 0;
    while y < |lines|
      invariant y <= |lines|
      invariant ScanLines(glyphs, lines, y) == Ok(sc)
    {
      var row := ReadRow(glyphs, sc.(width := |lines[y]|), lines[y], y);
      if row.Panic? {
        ScanPanicStays(glyphs, lines, y + 1);
        return row;
      }
      sc := row.value;
      y := y + 1;
    }
    r := Ok(sc);
  }

  /** Once a character panics, the line ends in that panic. */
  lemma {:induction false} ScanLinePanicStays(glyphs: GlyphTable, sc: Scan, line: string, y: int, n: nat)
    requires n <= |line| && ScanLine(glyphs, sc, line, y, n).Panic?
    ensures ScanLine(glyphs, sc, line, y, |line|) == ScanLine(glyphs, sc, line, y, n)
    decreases |line| - n
  {
    if n < |line| {
      ScanLinePanicStays(glyphs, sc, line, y, n + 1);
    }
  }

  /** Once a line panics, reading ends in that panic. */
  lemma {:induction false} ScanPanicStays(glyphs: GlyphTable, lines: seq<string>, n: nat)
    requires n <= |lines| && ScanLines(glyphs, lines, n).Panic?
    ensures ScanLines(glyphs, lines, |lines|) == ScanLines(glyphs, lines, n)
    decreases |lines| - n
  {
    if n < |lines| {
      ScanPanicStays(glyphs, lines, n + 1);
    }
  }

  /** No guard glyph among `line[from..to]`. */
  predicate NoGuardIn(glyphs: GlyphTable, line: string, from: int, to: int)
    requires 0 <= from && to <= |line|
  {
    forall x :: from <= x < to ==> glyphs(line[x]).None?
  }

  /** No guard glyph in the lines `from` to `to`. */
  predicate NoGuardBelow(glyphs: GlyphTable, lines: seq<string>, from: int, to: int)
    requires 0 <= from && to <= |lines|
  {
    forall y :: from <= y < to ==> NoGuardIn(glyphs, lines[y], 0, |lines[y]|)
  }

  /**
   * The guard `read_input` keeps: the default `(0, 0)` facing up when the
   * first `n` lines show none, otherwise the last one shown in reading
   * order, facing as the table reads its glyph.
   */
  predicate LastGuard(glyphs: GlyphTable, lines: seq<string>, n: nat, position: Position, direction: Direction)
    requires n <= |lines|
  {
    || (position == Position(0, 0) && direction == Up && NoGuardBelow(glyphs, lines, 0, n))
    || (&& 0 <= position.y < n && 0 <= position.x < |lines[position.y]|
        && glyphs(lines[position.y][position.x]) == Some(direction)
        && NoGuardIn(glyphs, lines[position.y], position.x + 1, |lines[position.y]|)
        && NoGuardBelow(glyphs, lines, position.y + 1, n))
  }

  /**
   * One line read: it panics exactly on a character that is not known; the
   * obstacles gain the `#` cells of the line; the guard is the last one the
   * line shows, facing as the table reads it, or stays as it was.
   */
  lemma {:induction false} ScanLineFacts(glyphs: GlyphTable, sc: Scan, line: string, y: int, n: nat)
    requires GuardTable(glyphs) && n <= |line|
    ensures ScanLine(glyphs, sc, line, y, n).Ok? <==> forall x :: 0 <= x < n ==> Known(glyphs, line[x])
    ensures ScanLine(glyphs, sc, line, y, n).Ok? ==>
      var r := ScanLine(glyphs, sc, line, y, n).value;
      && r.width == sc.width
      && (forall p :: p in r.obstacles <==> p in sc.obstacles || (p.y == y && 0 <= p.x < n && line[p.x] == '#'))
      && (|| (r.guardPosition == sc.guardPosition && r.guardDirection == sc.guardDirection && NoGuardIn(glyphs, line, 0, n))
          || (&& r.guardPosition.y == y && 0 <= r.guardPosition.x < n
              && glyphs(line[r.guardPosition.x]) == Some(r.guardDirection)
              && NoGuardIn(glyphs, line, r.guardPosition.x + 1, n)))
  {
    if n > 0 {
      ScanLineFacts(glyphs, sc, line, y, n - 1);
    }
  }

  /**
   * `read_input`'s grid: it panics exactly when some character is not known;
   * the width is the length of the last line; the obstacles are exactly the
   * `#` cells; the guard is the last one shown, facing as the table reads it.
   */
  lemma {:induction false} ScanLinesFacts(glyphs: GlyphTable, lines: seq<string>, n: nat)
    requires GuardTable(glyphs) && n <= |lines|
    ensures ScanLines(glyphs, lines, n).Ok? <==>
      forall y, x :: 0 <= y < n && 0 <= x < |lines[y]| ==> Known(glyphs, lines[y][x])
    ensures ScanLines(glyphs, lines, n).Ok? ==>
      var r := ScanLines(glyphs, lines, n).value;
      && r.width == (if n == 0 then 0 else |lines[n - 1]|)
      && (forall p :: p in r.obstacles <==>
            0 <= p.y < n && 0 <= p.x < |lines[p.y]| && lines[p.y][p.x] == '#')
      && LastGuard(glyphs, lines, n, r.guardPosition, r.guardDirection)
  {
    if n > 0 {
      ScanLinesFacts(glyphs, lines, n - 1);
      var line := lines[n - 1];
      if ScanLines(glyphs, lines, n - 1).Ok? {
        var sc := ScanLines(glyphs, lines, n - 1).value;
        ScanLineFacts(glyphs, sc.(width := |line|), line, n - 1, |line|);
      }
    }
  }

  /**
   * `read_input` with the glyph table `glyphs` (as written, `main` reads with
   * `GlyphDirectionAsWritten`): the map (height the number of lines, width
   * the length of the last line, the `#` cells as obstacles, the guard's cell
   * as start) and the guard, or the panic on an unknown character.
   */
  method ReadInput(glyphs: GlyphTable, lines: seq<string>) returns (r: Result<(Map, Guard)>)
    requires GuardTable(glyphs)
    ensures r.Panic? <==> ScanLines(glyphs, lines, |lines|).Panic?
    ensures r.Ok? ==>
      var sc := ScanLines(glyphs, lines, |lines|).value;
      var (m, guard) := r.value;
      && fresh(m) && fresh(guard) && m.Valid()
      && m.Grid() == Board(sc.width, |lines|, sc.obstacles) && m.startPosition == sc.guardPosition
      && m.visited == {} && m.visitedDirectional == map[] && m.turns == {}
      && guard.position == sc.guardPosition && guard.direction == sc.guardDirection
  {
    var grid := ReadGrid(glyphs, lines);
    if grid.Panic? {
      return Panic(grid.reason);
    }
    var sc := grid.value;
    var m := new Map(|lines|, sc.width, sc.obstacles, sc.guardPosition);
    var guard := new Guard(sc.guardPosition, sc.guardDirection);
    r := Ok((m, guard));
  }

  /**
   * Part 1 of `main`: read the grid with the table `glyphs`, walk the guard
   * (with at most `fuel` passes) and count the visited cells.
   */
  method Part1(glyphs: GlyphTable, lines: seq<string>, fuel: nat) returns (r: Result<Option<nat>>)
    requires GuardTable(glyphs)
    ensures r.Panic? <==> ScanLines(glyphs, lines, |lines|).Panic?
    ensures r.Ok? ==>
      var sc := ScanLines(glyphs, lines, |lines|).value;
      var w := Walk(Board(sc.width, |lines|, sc.obstacles), Start(sc.guardPosition, sc.guardDirection), fuel);
      && (r.value.None? <==> w.None?)
      && (r.value.Some? ==> r.value.value == |w.value.visited|)
  {
    var input := ReadInput(glyphs, lines);
    if input.Panic? {
      return Panic(input.reason);
    }
    var (m, guard) := input.value;
    var fields := MoveGuard(m, guard, fuel);
    r := Ok(fields);
  }

  // ---------------------------------------------------------------- golden

  /**
   * A 3 by 3 grid with an obstacle at `(1, 0)` and the guard at `(1, 2)`
   * facing up: it steps up, turns right in front of the obstacle, steps
   * right and leaves, having visited three cells and turned once.
   */
  lemma GoldenWalk()
    ensures var b := Board(3, 3, {Position(1, 0)});
      var w := Walk(b, Start(Position(1, 2), Up), 4);
      && w.Some?
      && w.value.visited == {Position(1, 2), Position(1, 1), Position(2, 1)}
      && w.value.turns == {Position(1, 1)}
      && w.value.position == Position(2, 1) && w.value.direction == Right
  {
    var b := Board(3, 3, {Position(1, 0)});
    var p0 := Start(Position(1, 2), Up);
    var p1 := Step(b, p0).0;
    assert p1.position == Position(1, 1) && p1.direction == Up;
    var p2 := Step(b, p1).0;
    assert p2.position == Position(1, 1) && p2.direction == Right;
    var p3 := Step(b, p2).0;
    assert p3.position == Position(2, 1) && p3.direction == Right;
    var p4 := Step(b, p3);
    assert p4.1;
    assert Walk(b, p0, 4) == Walk(b, p1, 3) == Walk(b, p2, 2) == Walk(b, p3, 1) == Some(p4.0);
  }

  /** The grid of the walk above, as text: the obstacle, its size and the guard (read the same by both tables). */
  lemma GoldenScan(glyphs: GlyphTable)
    requires GuardTable(glyphs) && glyphs('^') == Some(Up)
    ensures ScanLines(glyphs, [".#.", "...", ".^."], 3) == Ok(Scan(3, {Position(1, 0)}, Position(1, 2), Up))
  {
    var lines := [".#.", "...", ".^."];
    var s1 := Scan(3, {Position(1, 0)}, Position(0, 0), Up);
    assert lines[0][0] == '.' && lines[0][1] == '#' && lines[0][2] == '.';
    assert lines[1][0] == '.' && lines[1][1] == '.' && lines[1][2] == '.';
    assert lines[2][0] == '.' && lines[2][1] == '^' && lines[2][2] == '.';
    assert glyphs('.').None? && glyphs('#').None?;
    assert NoScan.(width := 3) == Scan(3, {}, Position(0, 0), Up);
    assert {} + {Position(1, 0)} == {Position(1, 0)};
    assert ScanCell(glyphs, NoScan.(width := 3), '#', 1, 0) == Ok(s1);
    assert ScanLine(glyphs, NoScan.(width := 3), lines[0], 0, 1) == Ok(NoScan.(width := 3));
    assert ScanLine(glyphs, NoScan.(width := 3), lines[0], 0, 2) == Ok(s1);
    assert ScanLines(glyphs, lines, 1) == Ok(s1);
    assert ScanLine(glyphs, s1, lines[1], 1, 1) == Ok(s1);
    assert ScanLine(glyphs, s1, lines[1], 1, 2) == Ok(s1);
    assert ScanLines(glyphs, lines, 2) == Ok(s1);
    assert ScanLine(glyphs, s1, lines[2], 2, 1) == Ok(s1);
    assert ScanLine(glyphs, s1, lines[2], 2, 2) == Ok(s1.(guardPosition := Position(1, 2)));
  }

  /** The one-line grid `>..`: the guard at `(0, 0)` faces as the table reads `>`. */
  lemma SwappedGuardScan(glyphs: GlyphTable, lines: seq<string>)
    requires GuardTable(glyphs) && lines == [">.."]
    ensures ScanLines(glyphs, lines, 1) == Ok(Scan(3, {}, Position(0, 0), glyphs('>').value))
  {
    var line := lines[0];
    assert line[0] == '>' && line[1] == '.' && line[2] == '.';
    assert glyphs('.').None?;
    var s1 := Scan(3, {}, Position(0, 0), glyphs('>').value);
    assert ScanLine(glyphs, NoScan.(width := 3), line, 0, 1) == Ok(s1);
    assert ScanLine(glyphs, NoScan.(width := 3), line, 0, 2) == Ok(s1);
  }

  /** On the free 3 by 1 board a guard at `(0, 0)` facing left leaves at once; facing right it crosses all three cells. */
  lemma SwappedGuardWalk(b: Board)
    requires b == Board(3, 1, {})
    ensures var w := Walk(b, Start(Position(0, 0), Left), 1);
      w.Some? && w.value.visited == {Position(0, 0)}
    ensures var w := Walk(b, Start(Position(0, 0), Right), 3);
      w.Some? && w.value.visited == {Position(0, 0), Position(1, 0), Position(2, 0)}
  {
    var q0 := Start(Position(0, 0), Left);
    assert Ahead(q0.position, Left) == Position(-1, 0);
    var p0 := Start(Position(0, 0), Right);
    var p1 := Step(b, p0).0;
    assert p1.position == Position(1, 0) && p1.direction == Right;
    var p2 := Step(b, p1).0;
    assert p2.position == Position(2, 0) && p2.direction == Right;
    var p3 := Step(b, p2);
    assert p3.1;
    assert Walk(b, p0, 3) == Walk(b, p1, 2) == Walk(b, p2, 1) == Some(p3.0);
  }

  /**
   * The grid `>..` as `read_input` is written: the guard is read facing
   * left and part 1 counts 1 visited cell; with the corrected table it
   * faces right, as `print_state` draws it, and part 1 counts 3.
   */
  lemma SwappedGuardPart1(lines: seq<string>)
    requires lines == [">.."]
    ensures ScanLines(GlyphDirectionAsWritten, lines, 1) == Ok(Scan(3, {}, Position(0, 0), Left))
    ensures ScanLines(GlyphDirection, lines, 1) == Ok(Scan(3, {}, Position(0, 0), Right))
    ensures var w := Walk(Board(3, |lines|, {}), Start(Position(0, 0), Left), 1);
      w.Some? && |w.value.visited| == 1
    ensures var w := Walk(Board(3, |lines|, {}), Start(Position(0, 0), Right), 3);
      w.Some? && |w.value.visited| == 3
  {
    GuardTables();
    SwappedGuardScan(GlyphDirectionAsWritten, lines);
    SwappedGuardScan(GlyphDirection, lines);
    SwappedGuardWalk(Board(3, 1, {}));
    assert |{Position(0, 0), Position(1, 0), Position(2, 0)}| == 3;
  }
}
