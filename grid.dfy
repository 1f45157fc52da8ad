/**
 * Grid geometry shared by the window managers of windows.js and the legacy renderer.js:
 * grid dimensions, cell positions, the cascade offsets, and the centre-out spiral
 * order of the grid cells.
 */
module Grid {
  import opened Wrappers
  import Config

  /** The sizes and caps that differ between the module renderer and the legacy renderer. */
  datatype Layout = Layout(windowWidth: nat, windowHeight: nat, maxWindows: nat, maxPerProject: nat)

  /** orchestrator/renderer/modules/config.js */
  const ModuleLayout: Layout :=
    Layout(Config.WindowWidth, Config.WindowHeight, Config.MaxWindows, Config.MaxPerProject)

  /** The CONFIG block of orchestrator/renderer/renderer.js */
  const LegacyLayout: Layout := Layout(350, 350, 50, 15)

  /** Outer width of a window: content plus chrome padding. */
  function TotalWidth(layout: Layout): nat
  {
    layout.windowWidth + Config.ChromePadding
  }

  /** Outer height of a window: content plus title bar and chrome padding. */
  function TotalHeight(layout: Layout): nat
  {
    layout.windowHeight + Config.TitlebarHeight + Config.ChromePadding
  }

  function Stride(layout: Layout): nat
  {
    TotalWidth(layout) + Config.WindowGap
  }

  function RowStride(layout: Layout): nat
  {
    TotalHeight(layout) + Config.WindowGap
  }

  /**
   * How many cells of `stride` fit after a leading gap in `extent` pixels, at least 1:
   * `Math.max(1, Math.floor((extent - WINDOW_GAP) / stride))`.
   */
  function CellsAcross(extent: int, stride: nat): (n: int)
    requires stride > 0
    ensures n >= 1
    ensures n == 1 || Config.WindowGap + n * stride <= extent
    ensures Config.WindowGap + (n + 1) * stride > extent
  {
    var q := (extent - Config.WindowGap) / stride;
    if q < 1 then 1 else q
  }

  datatype Point = Point(x: int, y: int)

  /** `getGridPosition(index)`: the top-left corner of cell `index` of a grid `cols` wide. */
  function GridPosition(layout: Layout, index: nat, cols: int): (p: Point)
    requires cols >= 1
    ensures p.x >= Config.WindowGap && p.y >= Config.WindowGap
    ensures p.x <= Config.WindowGap + (cols - 1) * Stride(layout)
  {
    var col := index % cols;
    var row := index / cols;
    Point(Config.WindowGap + col * Stride(layout), Config.WindowGap + row * RowStride(layout))
  }

  /** Which cell a grid corner belongs to: the inverse of GridPosition. */
  function CellAt(layout: Layout, p: Point, cols: int): int
    requires cols >= 1
  {
    ((p.y - Config.WindowGap) / RowStride(layout)) * cols + (p.x - Config.WindowGap) / Stride(layout)
  }

  /** Distinct cells have distinct corners: CellAt recovers the index from the position. */
  lemma GridPositionRoundTrip(layout: Layout, index: nat, cols: int)
    requires cols >= 1
    ensures CellAt(layout, GridPosition(layout, index, cols), cols) == index
  {
    var col := index % cols;
    var row := index / cols;
    var p := GridPosition(layout, index, cols);
    assert p.x - Config.WindowGap == col * Stride(layout);
    assert p.y - Config.WindowGap == row * RowStride(layout);
    MulDiv(col, Stride(layout));
    MulDiv(row, RowStride(layout));
  }

  /** `getCascadePosition()` for the `n`-th window: offsets of 30 px wrapping at 300 and 200. */
  function CascadePosition(n: nat): (p: Point)
    ensures Config.WindowGap <= p.x < Config.WindowGap + 300
    ensures Config.WindowGap <= p.y < Config.WindowGap + 200
  {
    Point(Config.WindowGap + (n * 30) % 300, Config.WindowGap + (n * 30) % 200)
  }

  /** The cascade repeats every 20 windows, and its x offsets every 10. */
  lemma CascadePeriodic(n: nat)
    ensures CascadePosition(n + 20) == CascadePosition(n)
    ensures CascadePosition(n + 10).x == CascadePosition(n).x
  {
    assert (n + 20) * 30 == n * 30 + 3 * 200 == n * 30 + 2 * 300;
    assert (n + 10) * 30 == n * 30 + 1 * 300;
    ModShift(n * 30, 3, 200);
    ModShift(n * 30, 2, 300);
    ModShift(n * 30, 1, 300);
  }

  // ---------------------------------------------------------------------------
  // The spiral order
  // ---------------------------------------------------------------------------
  //
  // The walk runs in legs. Leg 4j+r (r < 4) moves in direction r, where the directions
  // are (0, +1), (+1, 0), (0, -1), (-1, 0) on (x, y), and has 2j+1 steps when r < 2 and
  // 2j+2 otherwise. Relative to the centre, leg 4j starts at (-j, -j), leg 4j+1 at
  // (-j, j+1), leg 4j+2 at (j+1, j+1) and leg 4j+3 at (j+1, -(j+1)). After leg 4j the
  // walk has passed every point of the square of radius j around the centre, so the grid
  // is covered after finitely many legs.

  function LegLength(j: nat, r: nat): nat
  {
    if r < 2 then 2 * j + 1 else 2 * j + 2
  }

  /** The leg after leg 4j+r, as (j, r). */
  function NextLeg(j: nat, r: nat): (nat, nat)
  {
    if r >= 3 then (j + 1, 0) else (j, r + 1)
  }

  /** The offset from the centre after `k` steps of leg 4j+r. */
  function Here(j: nat, r: nat, k: int): Point
  {
    var j: int := j;
    match r
    case 0 => Point(-j, -j + k)
    case 1 => Point(-j + k, j + 1)
    case 2 => Point(j + 1, j + 1 - k)
    case _ => Point(j + 1 - k, -(j + 1))
  }

  /** Offsets the walk has passed (and so visited) before taking step `k` of leg 4j+r. */
  predicate Passed(j: nat, r: nat, k: int, dx: int, dy: int)
  {
    var j: int := j;
    match r
    case 0 => (-(j - 1) <= dx <= j && -j <= dy <= j) || (dx == -j && -j <= dy < -j + k)
    case 1 => (-j <= dx <= j && -j <= dy <= j) || (dy == j + 1 && -j <= dx < -j + k)
    case 2 => (-j <= dx <= j && -j <= dy <= j + 1) || (dx == j + 1 && j + 1 - k < dy <= j + 1)
    case _ => (-j <= dx <= j + 1 && -j <= dy <= j + 1) || (dy == -(j + 1) && j + 1 - k < dx <= j + 1)
  }

  /** `Passed` for the grid point (px, py) of a walk centred at (cx, cy). */
  predicate PassedCell(j: nat, r: nat, k: int, cx: int, cy: int, px: int, py: int)
  {
    Passed(j, r, k, px - cx, py - cy)
  }

  /** The directions of the walk as (dx, dy), in turning order. */
  const Dirs: seq<(int, int)> := [(0, 1), (1, 0), (0, -1), (-1, 0)]

  function Direction(d: nat): Point
    requires d < 4
  {
    Point(Dirs[d].0, Dirs[d].1)
  }

  /** One step from step `k` of leg 4j+r reaches the position `Here` names for the next step. */
  lemma StepMoves(j: nat, r: nat, k: nat)
    requires r < 4 && k < LegLength(j, r)
    ensures var d := Direction(r);
      var h := Here(j, r, k);
      if k + 1 >= LegLength(j, r) then Here(NextLeg(j, r).0, NextLeg(j, r).1, 0) == Point(h.x + d.x, h.y + d.y)
      else Here(j, r, k + 1) == Point(h.x + d.x, h.y + d.y)
  {
  }

  /** One step adds exactly the point just left to the passed region. */
  lemma StepPasses(j: nat, r: nat, k: nat, dx: int, dy: int)
    requires r < 4 && k < LegLength(j, r)
    ensures var h := Here(j, r, k);
      var now := Passed(j, r, k, dx, dy) || (dx == h.x && dy == h.y);
      if k + 1 >= LegLength(j, r) then Passed(NextLeg(j, r).0, NextLeg(j, r).1, 0, dx, dy) == now
      else Passed(j, r, k + 1, dx, dy) == now
  {
  }

  /** The set {0, ..., n-1}. */
  ghost function Below(n: nat): (r: set<int>)
    ensures |r| == n
    ensures forall i :: i in r <==> 0 <= i < n
  {
    if n == 0 then {} else Below(n - 1) + {n - 1}
  }

  lemma {:induction false} SubsetSize(a: set<int>, b: set<int>)
    requires a <= b
    ensures |a| <= |b|
  {
    if a != {} {
      if forall y :: y !in a {
        assert false;
      }
      var x :| x in a;
      SubsetSize(a - {x}, b - {x});
    }
  }

  /** A set inside {0, ..., n-1} has at most n elements, and if it has n it is all of them. */
  lemma FullRange(s: set<int>, n: nat)
    requires forall i :: i in s ==> 0 <= i < n
    ensures |s| <= n
    ensures |s| >= n ==> forall i :: 0 <= i < n ==> i in s
  {
    var r := Below(n);
    SubsetSize(s, r);
    if |s| >= n && exists i :: 0 <= i < n && i !in s {
      var i :| 0 <= i < n && i !in s;
      SubsetSize(s, r - {i});
    }
  }

  /** A set holding all of {0, ..., n-1} has at least n elements. */
  lemma SizeOfCover(s: set<int>, n: nat)
    requires forall i :: 0 <= i < n ==> i in s
    ensures |s| >= n
  {
    SubsetSize(Below(n), s);
  }

  lemma PositiveProduct(cols: int, rows: int)
    requires cols >= 0 || rows >= 0
    ensures cols * rows > 0 ==> cols >= 1 && rows >= 1
  {
    if cols <= 0 && rows >= 0 {
      assert cols * rows <= 0;
    } else if rows <= 0 && cols >= 0 {
      assert cols * rows <= 0;
    }
  }

  lemma MulMono(a: int, b: int, c: int)
    requires c >= 0
    ensures a >= b ==> a * c >= b * c
  {
    if a >= b {
      assert a * c - b * c == (a - b) * c;
    }
  }

  /** Euclidean division undoes multiplication by a positive divisor. */
  lemma MulDiv(q: int, d: int)
    requires d > 0
    ensures (q * d) / d == q && (q * d) % d == 0
  {
    var r, m := (q * d) / d, (q * d) % d;
    assert q * d == r * d + m && 0 <= m < d;
    assert (q - r) * d == m;
    MulMono(q - r, 1, d);
    MulMono(-1, q - r, d);
  }

  /** Adding a multiple of the modulus leaves the remainder unchanged. */
  lemma ModShift(a: int, k: int, m: int)
    requires m > 0
    ensures (a + k * m) % m == a % m
  {
    var q, r := a / m, a % m;
    assert a + k * m == (q + k) * m + r;
    var q', r' := (a + k * m) / m, (a + k * m) % m;
    assert (q + k - q') * m == r' - r;
    MulMono(q + k - q', 1, m);
    MulMono(-1, q + k - q', m);
  }

  lemma CellIndexInRange(px: int, py: int, cols: int, rows: int)
    requires 0 <= px < cols && 0 <= py < rows
    ensures 0 <= py * cols + px < cols * rows
  {
    assert py * cols <= (rows - 1) * cols;
  }

  lemma CellOfIndex(i: int, cols: int, rows: int)
    requires cols >= 1 && 0 <= i < cols * rows
    ensures 0 <= i % cols < cols && 0 <= i / cols < rows
    ensures (i / cols) * cols + i % cols == i
  {
    MulMono(i / cols, rows, cols);
    assert rows * cols == cols * rows;
  }

  /** Every grid cell the walk has passed before step `k` of leg 4j+r is in `visited`. */
  ghost predicate Covers(j: nat, r: nat, k: int, cx: int, cy: int, cols: int, rows: int, visited: set<int>)
  {
    forall px, py {:trigger PassedCell(j, r, k, cx, cy, px, py)} ::
      0 <= px < cols && 0 <= py < rows && PassedCell(j, r, k, cx, cy, px, py) ==> py * cols + px in visited
  }

  /** The leg and step that follow step `k` of leg 4j+r. */
  function Next(j: nat, r: nat, k: nat): (nat, nat, nat)
  {
    if k + 1 >= LegLength(j, r) then (NextLeg(j, r).0, NextLeg(j, r).1, 0) else (j, r, k + 1)
  }

  /** Each step either starts the following leg or advances one step along the same leg. */
  lemma NextProgress(j: nat, r: nat, k: nat)
    requires r < 4 && k < LegLength(j, r)
    ensures var n := Next(j, r, k);
      || (4 * n.0 + n.1 == 4 * j + r + 1 && n.1 < 4 && n.2 == 0)
      || (n.0 == j && n.1 == r && n.2 == k + 1 && n.2 < LegLength(j, r))
  {
  }

  /** Legs are numbered 4j+r with r < 4, so leg 4R+1 is (R, 1). */
  lemma LegNumber(j: nat, r: nat, R: nat)
    requires r < 4
    ensures 4 * j + r == 4 * R + 1 ==> j == R && r == 1
  {
  }

  /** Visiting the current cell and stepping on keeps every passed cell visited. */
  lemma CoverStep(j: nat, r: nat, k: nat, cx: int, cy: int, x: int, y: int, cols: int, rows: int,
                  visited: set<int>, visited': set<int>)
    requires r < 4 && k < LegLength(j, r) && Point(x - cx, y - cy) == Here(j, r, k)
    requires Covers(j, r, k, cx, cy, cols, rows, visited) && visited <= visited'
    requires 0 <= x < cols && 0 <= y < rows ==> y * cols + x in visited'
    ensures Covers(Next(j, r, k).0, Next(j, r, k).1, Next(j, r, k).2, cx, cy, cols, rows, visited')
  {
    var (j', r', k') := Next(j, r, k);
    forall px, py | 0 <= px < cols && 0 <= py < rows && PassedCell(j', r', k', cx, cy, px, py)
      ensures py * cols + px in visited'
    {
      StepPasses(j, r, k, px - cx, py - cy);
      if PassedCell(j, r, k, cx, cy, px, py) {
        assert py * cols + px in visited;
      } else {
        assert px == x && py == y;
      }
    }
  }

  /**
   * Once the walk reaches leg 4R+1, where the square of radius R around the centre holds
   * the whole grid, every cell index has been visited.
   */
  lemma GridCovered(cx: int, cy: int, cols: int, rows: int, j: nat, r: nat, k: int, visited: set<int>)
    requires cols >= 1 && rows >= 1
    requires Covers(j, r, k, cx, cy, cols, rows, visited)
    ensures j == Radius(cx, cy, cols, rows) && r == 1 ==> |visited| >= cols * rows
  {
    if j == Radius(cx, cy, cols, rows) && r == 1 {
      forall i | 0 <= i < cols * rows
        ensures i in visited
      {
        CellOfIndex(i, cols, rows);
        var px, py := i % cols, i / cols;
        assert PassedCell(j, r, k, cx, cy, px, py);
      }
      SizeOfCover(visited, cols * rows);
    }
  }

  function Abs(n: int): nat
  {
    if n < 0 then -n else n
  }

  /** A radius around (cx, cy) whose square contains every cell of the grid. */
  function Radius(cx: int, cy: int, cols: int, rows: int): nat
  {
    Abs(cx) + Abs(cy) + Abs(cols) + Abs(rows)
  }

  /** `order` lists distinct cell indices below `n`, and `visited` is the set of them. */
  ghost predicate Listed(order: seq<int>, visited: set<int>, n: int)
  {
    && (forall i :: 0 <= i < |order| ==> 0 <= order[i] < n && order[i] in visited)
    && (forall i, j :: 0 <= i < j < |order| ==> order[i] != order[j])
    && |visited| == |order|
  }

  /** A sequence of distinct values has as many distinct elements as entries. */
  lemma {:induction false} DistinctElements(s: seq<int>)
    requires forall i, j :: 0 <= i < j < |s| ==> s[i] != s[j]
    ensures |set x | x in s| == |s|
  {
    if |s| > 0 {
      var init := s[..|s| - 1];
      DistinctElements(init);
      assert (set x | x in s) == (set x | x in init) + {s[|s| - 1]};
      assert s[|s| - 1] !in init;
    }
  }

  /** Once the listing holds n cells, it holds every cell index below n, each exactly once. */
  lemma ListedAll(order: seq<int>, visited: set<int>, n: nat)
    requires Listed(order, visited, n) && |order| >= n
    ensures |order| == n
    ensures forall c :: 0 <= c < n ==> c in order
  {
    var elems := set x | x in order;
    DistinctElements(order);
    assert elems <= visited;
    if visited - elems != {} {
      if forall y :: y !in visited - elems {
        assert false;
      }
      var v :| v in visited - elems;
      assert elems <= visited - {v};
      assert |visited - {v}| == |visited| - 1;
      SubsetSize(elems, visited - {v});
      assert false;
    }
    assert visited == elems;
    forall v | v in visited
      ensures 0 <= v < n
    {
      assert v in elems;
      var i :| 0 <= i < |order| && order[i] == v;
    }
    FullRange(visited, n);
    forall c | 0 <= c < n
      ensures c in order
    {
      assert c in elems;
    }
  }

  /** A listing of values in [0, n) can only be non-empty when n is positive. */
  lemma InRangeNonEmpty(order: seq<int>, n: int)
    requires forall i :: 0 <= i < |order| ==> 0 <= order[i] < n
    ensures |order| > 0 ==> n > 0
  {
    if |order| > 0 {
      assert 0 <= order[0] < n;
    }
  }

  /** When the loop stops, the listing is the promised permutation with the centre first. */
  lemma SpiralDone(cx: int, cy: int, cols: int, rows: int, w: Walker, j: nat, r: nat,
                   order: seq<int>, visited: set<int>, started: bool)
    requires cols >= 0 || rows >= 0
    requires SpiralInvariant(cx, cy, cols, rows, w, j, r, order, visited, started)
    requires |order| >= cols * rows
    ensures |order| == if cols * rows > 0 then cols * rows else 0
    ensures forall i :: 0 <= i < |order| ==> 0 <= order[i] < cols * rows
    ensures forall i, j :: 0 <= i < j < |order| ==> order[i] != order[j]
    ensures forall c :: 0 <= c < cols * rows ==> c in order
    ensures 0 <= cx < cols && 0 <= cy < rows ==> |order| > 0 && order[0] == cy * cols + cx
  {
    PositiveProduct(cols, rows);
    InRangeNonEmpty(order, cols * rows);
    if cols * rows > 0 {
      ListedAll(order, visited, cols * rows);
    }
    if 0 <= cx < cols && 0 <= cy < rows {
      CellIndexInRange(cx, cy, cols, rows);
    }
  }

  /** The effect of visiting (x, y): a grid cell not yet visited is recorded. */
  function Visit(order: seq<int>, visited: set<int>, x: int, y: int, cols: int, rows: int): (seq<int>, set<int>)
  {
    if 0 <= x < cols && 0 <= y < rows && y * cols + x !in visited then
      (order + [y * cols + x], visited + {y * cols + x})
    else (order, visited)
  }

  /** Visiting keeps the listing distinct and in range, only appends, and records an in-grid cell. */
  lemma VisitKeeps(order: seq<int>, visited: set<int>, x: int, y: int, cols: int, rows: int)
    requires Listed(order, visited, cols * rows)
    ensures var (order', visited') := Visit(order, visited, x, y, cols, rows);
      && Listed(order', visited', cols * rows)
      && visited <= visited'
      && |order'| >= |order| && order'[..|order|] == order
      && (0 <= x < cols && 0 <= y < rows ==> y * cols + x in visited')
  {
    if 0 <= x < cols && 0 <= y < rows {
      CellIndexInRange(x, y, cols, rows);
    }
  }

  /** Nothing is listed before the first visit; afterwards an in-grid centre is listed first. */
  ghost predicate CentreFirst(order: seq<int>, cx: int, cy: int, cols: int, rows: int, started: bool)
  {
    && (!started ==> order == [])
    && (started && 0 <= cx < cols && 0 <= cy < rows ==> |order| > 0 && order[0] == cy * cols + cx)
  }

  /** The loop variables of the walk: position, direction and the step and turn counters. */
  datatype Walker = Walker(x: int, y: int, dirIdx: int, steps: int, stepCount: int, turnCount: int)

  /** The move and turn bookkeeping at the end of one iteration. */
  function Moved(w: Walker): Walker
    requires 0 <= w.dirIdx < 4
  {
    var x, y := w.x + Dirs[w.dirIdx].0, w.y + Dirs[w.dirIdx].1;
    var stepCount := w.stepCount + 1;
    if stepCount >= w.steps then
      var turnCount := w.turnCount + 1;
      Walker(x, y, (w.dirIdx + 1) % 4,
             if turnCount >= 2 then w.steps + 1 else w.steps, 0,
             if turnCount >= 2 then 0 else turnCount)
    else
      Walker(x, y, w.dirIdx, w.steps, stepCount, w.turnCount)
  }

  /** The walker's counters agree with leg 4j+r, and its position is where `Here` puts it. */
  predicate Walking(cx: int, cy: int, w: Walker, j: nat, r: nat)
  {
    && r < 4 && w.dirIdx == r
    && w.turnCount == (if r == 1 || r == 3 then 1 else 0)
    && w.steps == LegLength(j, r) && 0 <= w.stepCount < w.steps
    && Point(w.x - cx, w.y - cy) == Here(j, r, w.stepCount)
  }

  /** One iteration's move and turn bookkeeping keeps the walker on the spiral. */
  lemma Advance(cx: int, cy: int, w: Walker, j: nat, r: nat)
    requires Walking(cx, cy, w, j, r)
    ensures var next := Next(j, r, w.stepCount);
      Walking(cx, cy, Moved(w), next.0, next.1) && Moved(w).stepCount == next.2
  {
    StepMoves(j, r, w.stepCount);
  }

  /** The loop invariant of SpiralOrder, with the walker on leg 4j+r. */
  ghost predicate SpiralInvariant(cx: int, cy: int, cols: int, rows: int, w: Walker, j: nat, r: nat,
                                  order: seq<int>, visited: set<int>, started: bool)
  {
    && Walking(cx, cy, w, j, r)
    && 4 * j + r <= 4 * Radius(cx, cy, cols, rows) + 1
    && Listed(order, visited, cols * rows)
    && Covers(j, r, w.stepCount, cx, cy, cols, rows, visited)
    && (!started ==> w.x == cx && w.y == cy)
    && CentreFirst(order, cx, cy, cols, rows, started)
  }

  /**
   * One iteration of the loop takes the walker from `w` on leg 4j+r to `w'` on leg 4j'+r'
   * and the listing from `order` to `order'`; it keeps the invariant, and either moves to a
   * later leg or takes one step of the current leg, never passing leg 4R+1 while cells are
   * missing.
   */
  lemma SpiralStep(cx: int, cy: int, cols: int, rows: int, w: Walker, j: nat, r: nat,
                   order: seq<int>, visited: set<int>, started: bool,
                   w': Walker, j': nat, r': nat, order': seq<int>, visited': set<int>)
    requires cols >= 1 && rows >= 1
    requires SpiralInvariant(cx, cy, cols, rows, w, j, r, order, visited, started)
    requires |order| < cols * rows
    requires (order', visited') == Visit(order, visited, w.x, w.y, cols, rows)
    requires 0 <= w.dirIdx < 4 && w' == Moved(w)
    requires (j', r') == (Next(j, r, w.stepCount).0, Next(j, r, w.stepCount).1)
    ensures SpiralInvariant(cx, cy, cols, rows, w', j', r', order', visited', true)
    ensures 4 * j + r <= 4 * Radius(cx, cy, cols, rows)
    ensures 4 * j' + r' > 4 * j + r || (j' == j && r' == r && w'.steps - w'.stepCount < w.steps - w.stepCount)
  {
    var R := Radius(cx, cy, cols, rows);
    GridCovered(cx, cy, cols, rows, j, r, w.stepCount, visited);
    LegNumber(j, r, R);
    assert 4 * j + r <= 4 * R;
    VisitKeeps(order, visited, w.x, w.y, cols, rows);
    CoverStep(j, r, w.stepCount, cx, cy, w.x, w.y, cols, rows, visited, visited');
    Advance(cx, cy, w, j, r);
    NextProgress(j, r, w.stepCount);
  }

  /** The visit at the top of each iteration of the spiral loop. */
  method VisitCell(order: seq<int>, visited: set<int>, x: int, y: int, cols: int, rows: int)
    returns (order': seq<int>, visited': set<int>)
    ensures (order', visited') == Visit(order, visited, x, y, cols, rows)
  {
    order', visited' := order, visited;
    if x >= 0 && x < cols && y >= 0 && y < rows {
      var idx := y * cols + x;
      if idx !in visited {
        visited' := visited + {idx};
        order' := order + [idx];
      }
    }
  }

  /** The move and turn at the bottom of each iteration of the spiral loop. */
  method MoveAndTurn(dirs: seq<(int, int)>, x: int, y: int, dirIdx: int, steps: int, stepCount: int, turnCount: int)
    returns (x': int, y': int, dirIdx': int, steps': int, stepCount': int, turnCount': int)
    requires dirs == Dirs && 0 <= dirIdx < 4
    ensures Walker(x', y', dirIdx', steps', stepCount', turnCount')
         == Moved(Walker(x, y, dirIdx, steps, stepCount, turnCount))
  {
    x' := x + dirs[dirIdx].0;
    y' := y + dirs[dirIdx].1;
    stepCount' := stepCount + 1;
    dirIdx', steps', turnCount' := dirIdx, steps, turnCount;
    if stepCount' >= steps {
      stepCount' := 0;
      dirIdx' := (dirIdx + 1) % 4;
      turnCount' := turnCount + 1;
      if turnCount' >= 2 {
        turnCount' := 0;
        steps' := steps + 1;
      }
    }
  }

  /**
   * The listing the spiral loop produces from a given loop state: one visit and one
   * move per iteration, until `cols * rows` cells are listed.
   */
  ghost function Walk(cx: int, cy: int, cols: int, rows: int, w: Walker, j: nat, r: nat,
                      order: seq<int>, visited: set<int>, started: bool): seq<int>
    requires cols >= 0 || rows >= 0
    requires SpiralInvariant(cx, cy, cols, rows, w, j, r, order, visited, started)
    decreases 4 * Radius(cx, cy, cols, rows) + 1 - (4 * j + r), w.steps - w.stepCount
  {
    if |order| >= cols * rows then order
    else
      PositiveProduct(cols, rows);
      var visit := Visit(order, visited, w.x, w.y, cols, rows);
      var next := Next(j, r, w.stepCount);
      SpiralStep(cx, cy, cols, rows, w, j, r, order, visited, started, Moved(w), next.0, next.1, visit.0, visit.1);
      Walk(cx, cy, cols, rows, Moved(w), next.0, next.1, visit.0, visit.1, true)
  }

  /** The loop's starting state: at the centre, one step per leg, nothing listed. */
  function Start(cx: int, cy: int): Walker
  {
    Walker(cx, cy, 0, 1, 0, 0)
  }

  /** `generateSpiralOrder(cx, cy, cols, rows)` as a value: the walk from its starting state. */
  ghost function SpiralListing(cx: int, cy: int, cols: int, rows: int): seq<int>
    requires cols >= 0 || rows >= 0
  {
    StartHolds(cx, cy, cols, rows);
    Walk(cx, cy, cols, rows, Start(cx, cy), 0, 0, [], {}, false)
  }

  lemma StartHolds(cx: int, cy: int, cols: int, rows: int)
    ensures SpiralInvariant(cx, cy, cols, rows, Start(cx, cy), 0, 0, [], {}, false)
  {
  }

  /** Whatever loop state it starts from, the walk ends with the promised permutation. */
  lemma {:induction false} WalkListsAll(cx: int, cy: int, cols: int, rows: int, w: Walker, j: nat, r: nat,
                                        order: seq<int>, visited: set<int>, started: bool)
    requires cols >= 0 || rows >= 0
    requires SpiralInvariant(cx, cy, cols, rows, w, j, r, order, visited, started)
    ensures var o := Walk(cx, cy, cols, rows, w, j, r, order, visited, started);
      && |o| == (if cols * rows > 0 then cols * rows else 0)
      && (forall i :: 0 <= i < |o| ==> 0 <= o[i] < cols * rows)
      && (forall i, k :: 0 <= i < k < |o| ==> o[i] != o[k])
      && (forall c :: 0 <= c < cols * rows ==> c in o)
      && (0 <= cx < cols && 0 <= cy < rows ==> |o| > 0 && o[0] == cy * cols + cx)
    decreases 4 * Radius(cx, cy, cols, rows) + 1 - (4 * j + r), w.steps - w.stepCount
  {
    if |order| >= cols * rows {
      SpiralDone(cx, cy, cols, rows, w, j, r, order, visited, started);
    } else {
      PositiveProduct(cols, rows);
      var visit := Visit(order, visited, w.x, w.y, cols, rows);
      var next := Next(j, r, w.stepCount);
      SpiralStep(cx, cy, cols, rows, w, j, r, order, visited, started, Moved(w), next.0, next.1, visit.0, visit.1);
      WalkListsAll(cx, cy, cols, rows, Moved(w), next.0, next.1, visit.0, visit.1, true);
    }
  }

  /**
   * The spiral listing names every cell of the grid exactly once (a permutation of
   * 0 .. cols*rows-1), and starts at the centre when the centre lies in the grid.
   */
  lemma SpiralListingIsPermutation(cx: int, cy: int, cols: int, rows: int)
    requires cols >= 0 || rows >= 0
    ensures var o := SpiralListing(cx, cy, cols, rows);
      && |o| == (if cols * rows > 0 then cols * rows else 0)
      && (forall i :: 0 <= i < |o| ==> 0 <= o[i] < cols * rows)
      && (forall i, k :: 0 <= i < k < |o| ==> o[i] != o[k])
      && (forall c :: 0 <= c < cols * rows ==> c in o)
      && (0 <= cx < cols && 0 <= cy < rows ==> |o| > 0 && o[0] == cy * cols + cx)
  {
    StartHolds(cx, cy, cols, rows);
    WalkListsAll(cx, cy, cols, rows, Start(cx, cy), 0, 0, [], {}, false);
  }

  /**
   * `generateSpiralOrder(cx, cy, cols, rows)`: the cell indices `y * cols + x`, in the
   * order a square spiral starting at (cx, cy) meets them. Every cell appears exactly once,
   * and the centre comes first when it lies in the grid. When `cols` and `rows` are both
   * negative their product is positive but no cell is ever in range, and the source loops
   * forever; that case is excluded.
   */
  method SpiralOrder(cx: int, cy: int, cols: int, rows: int) returns (order: seq<int>)
    requires cols >= 0 || rows >= 0
    ensures order == SpiralListing(cx, cy, cols, rows)
    ensures |order| == if cols * rows > 0 then cols * rows else 0
    ensures forall i :: 0 <= i < |order| ==> 0 <= order[i] < cols * rows
    ensures forall i, j :: 0 <= i < j < |order| ==> order[i] != order[j]
    ensures forall c :: 0 <= c < cols * rows ==> c in order
    ensures 0 <= cx < cols && 0 <= cy < rows ==> |order| > 0 && order[0] == cy * cols + cx
  {
    order := [];
    var visited: set<int> := {};
    var dirs := Dirs;
    var x, y := cx, cy;
    var dirIdx := 0;
    var steps := 1;
    var stepCount := 0;
    var turnCount := 0;
    ghost var j: nat, r: nat := 0, 0;
    ghost var started := false;

    var maxCells := cols * rows;
    PositiveProduct(cols, rows);
    StartHolds(cx, cy, cols, rows);
    while |order| < maxCells
      invariant SpiralInvariant(cx, cy, cols, rows, Walker(x, y, dirIdx, steps, stepCount, turnCount), j, r,
                                order, visited, started)
      invariant Walk(cx, cy, cols, rows, Walker(x, y, dirIdx, steps, stepCount, turnCount), j, r,
                     order, visited, started) == SpiralListing(cx, cy, cols, rows)
      decreases 4 * Radius(cx, cy, cols, rows) + 1 - (4 * j + r), steps - stepCount
    {
      ghost var w, j0, r0, order0, visited0, started0 :=
        Walker(x, y, dirIdx, steps, stepCount, turnCount), j, r, order, visited, started;

      order, visited := VisitCell(order, visited, x, y, cols, rows);
      x, y, dirIdx, steps, stepCount, turnCount := MoveAndTurn(dirs, x, y, dirIdx, steps, stepCount, turnCount);
      j, r, started := Next(j0, r0, w.stepCount).0, Next(j0, r0, w.stepCount).1, true;
      SpiralStep(cx, cy, cols, rows, w, j0, r0, order0, visited0, started0,
                 Walker(x, y, dirIdx, steps, stepCount, turnCount), j, r, order, visited);
    }
    SpiralListingIsPermutation(cx, cy, cols, rows);
  }

}
