/**
 * Virtual-window bookkeeping of the orchestrator (orchestrator/renderer/modules/windows.js,
 * and with LegacyLayout the same bookkeeping in orchestrator/renderer/renderer.js).
 *
 * A window is a record {id, project, gridIndex, frame}; the DOM element behind it is not
 * modelled. The manager keeps the list of open windows in creation order, a count per
 * project, the id counter, the current placement pattern and the grid occupancy
 * `gridCells` (a cell holds the id of the window placed in it, or null).
 */
module Windows {
  import opened Wrappers
  import opened Grid
  import opened Config
  import Stats

  /** The `currentPattern` values: 'grid', 'spiral', 'random', 'cascade', 'burst'. */
  datatype Pattern = GridFill | Spiral | RandomSpot | Cascade | Burst

  /** left / top / width / height of a window element, in pixels. */
  datatype Rect = Rect(left: int, top: int, width: int, height: int)

  /** A tracked window; `prev` is the frame saved by maximize. */
  datatype Win = Win(id: nat, project: Project, gridIndex: int, frame: Rect, isMaximized: bool, prev: Rect)

  /** What `getNextPosition` returns: a corner and a grid cell (-1 for none). */
  datatype Placement = Placement(pos: Point, gridIndex: int)

  type Cell = Option<nat>

  /** The manager's state, as a value. */
  datatype Board = Board(windows: seq<Win>, nextId: nat, counts: map<Project, int>, pattern: Pattern,
                         cells: seq<Cell>, cols: int, rows: int)

  // ---------------------------------------------------------------------------
  // Counting and lookup
  // ---------------------------------------------------------------------------

  /** The number of listed windows showing project `p`. */
  function CountOf(ws: seq<Win>, p: Project): nat
  {
    if |ws| == 0 then 0 else CountOf(ws[..|ws| - 1], p) + (if ws[|ws| - 1].project == p then 1 else 0)
  }

  lemma {:induction false} CountConcat(a: seq<Win>, b: seq<Win>, p: Project)
    ensures CountOf(a + b, p) == CountOf(a, p) + CountOf(b, p)
    decreases |b|
  {
    if |b| == 0 {
      assert a + b == a;
    } else {
      assert (a + b)[..|a + b| - 1] == a + b[..|b| - 1];
      CountConcat(a, b[..|b| - 1], p);
    }
  }

  /** Removing the window at index k lowers exactly its project's count, by one. */
  lemma CountRemove(ws: seq<Win>, k: nat, p: Project)
    requires k < |ws|
    ensures CountOf(ws[..k] + ws[k + 1..], p) + (if ws[k].project == p then 1 else 0) == CountOf(ws, p)
  {
    assert ws == ws[..k] + [ws[k]] + ws[k + 1..];
    CountConcat(ws[..k] + [ws[k]], ws[k + 1..], p);
    CountConcat(ws[..k], [ws[k]], p);
    CountConcat(ws[..k], ws[k + 1..], p);
    assert CountOf([ws[k]], p) == if ws[k].project == p then 1 else 0 by {
      assert [ws[k]][..0] == [];
    }
  }

  lemma CountBound(ws: seq<Win>, p: Project)
    ensures CountOf(ws, p) <= |ws|
  {
    if |ws| > 0 {
      CountBound(ws[..|ws| - 1], p);
    }
  }

  /** `virtualWindows.findIndex(w => w.id === id)`: the first window with that id, or -1. */
  function FindIndex(ws: seq<Win>, id: nat): (k: int)
    ensures -1 <= k < |ws|
    ensures k >= 0 ==> ws[k].id == id && forall j :: 0 <= j < k ==> ws[j].id != id
    ensures k == -1 ==> forall j :: 0 <= j < |ws| ==> ws[j].id != id
  {
    if |ws| == 0 then -1
    else if ws[0].id == id then 0
    else
      var k := FindIndex(ws[1..], id);
      assert forall j :: 1 <= j < |ws| ==> ws[j] == ws[1..][j - 1];
      if k < 0 then -1 else k + 1
  }

  // ---------------------------------------------------------------------------
  // The invariant
  // ---------------------------------------------------------------------------

  /** Every project has a counter (state.js initialises one per entry of PROJECTS). */
  predicate AllCounted(counts: map<Project, int>)
  {
    forall p: Project :: p in counts
  }

  ghost predicate CountsMatch(ws: seq<Win>, counts: map<Project, int>)
  {
    forall p: Project :: p in counts && counts[p] == CountOf(ws, p)
  }

  /** Ids strictly increase along the list and all lie below the id counter. */
  ghost predicate IdsIncreasing(ws: seq<Win>, nextId: nat)
  {
    && (forall i, j :: 0 <= i < j < |ws| ==> ws[i].id < ws[j].id)
    && (forall i :: 0 <= i < |ws| ==> ws[i].id < nextId)
  }

  /** A window whose grid index lies in the grid holds that cell. */
  ghost predicate CellsHeld(ws: seq<Win>, cells: seq<Cell>)
  {
    forall k :: 0 <= k < |ws| && 0 <= ws[k].gridIndex < |cells| ==> cells[ws[k].gridIndex] == Some(ws[k].id)
  }

  /** The bookkeeping every operation keeps, whatever the grid's shape. */
  ghost predicate Tracked(layout: Layout, b: Board)
  {
    && CountsMatch(b.windows, b.counts)
    && |b.windows| <= layout.maxWindows
    && (forall p: Project :: CountOf(b.windows, p) <= layout.maxPerProject)
    && IdsIncreasing(b.windows, b.nextId)
    && CellsHeld(b.windows, b.cells)
  }

  /** The grid has been computed: at least one column and row, one cell per position. */
  ghost predicate Shaped(b: Board)
  {
    b.cols >= 1 && b.rows >= 1 && |b.cells| == b.cols * b.rows
  }

  ghost predicate Inv(layout: Layout, b: Board)
  {
    Shaped(b) && Tracked(layout, b)
  }

  /** state.js: no windows, id counter 0, every project counted 0, no grid yet. */
  function Initial(pattern: Pattern): (b: Board)
    ensures AllCounted(b.counts)
  {
    EveryProjectListed();
    Board([], 0, map p: Project | p in Projects :: 0, pattern, [], 0, 0)
  }

  lemma EveryProjectListed()
    ensures forall p: Project :: p in Projects
  {
    forall p: Project
      ensures p in Projects
    {
      ProjectsListsEveryProject(p);
    }
  }

  lemma InitialTracked(layout: Layout, pattern: Pattern)
    ensures Tracked(layout, Initial(pattern))
  {
  }

  /** Ids that strictly increase along the list pick out one window each. */
  lemma IdsDistinct(ws: seq<Win>, nextId: nat)
    requires IdsIncreasing(ws, nextId)
    ensures forall i, j :: 0 <= i < |ws| && 0 <= j < |ws| && ws[i].id == ws[j].id ==> i == j
  {
  }

  // ---------------------------------------------------------------------------
  // recalculateGrid
  // ---------------------------------------------------------------------------

  /** The new occupancy: cell i holds the i-th window while there are windows left. */
  function CellsFor(ws: seq<Win>, n: nat): (cells: seq<Cell>)
    ensures |cells| == n
  {
    seq(n, i requires 0 <= i < n => if i < |ws| then Some(ws[i].id) else None)
  }

  /**
   * The re-assignment of grid indices: window k takes cell k while k is in the grid;
   * the windows beyond the grid are taken off it (grid index -1).
   */
  function Reassigned(ws: seq<Win>, n: nat): (ws': seq<Win>)
    ensures |ws'| == |ws|
  {
    seq(|ws|, k requires 0 <= k < |ws| => ws[k].(gridIndex := if k < n then k else -1))
  }

  /** `recalculateGrid()` for a container of `width` x `height` pixels. */
  function Regrid(layout: Layout, b: Board, width: int, height: int): Board
  {
    var cols := CellsAcross(width, Stride(layout));
    var rows := CellsAcross(height, RowStride(layout));
    PositiveCells(cols, rows);
    b.(cols := cols, rows := rows, cells := CellsFor(b.windows, cols * rows),
       windows := Reassigned(b.windows, cols * rows))
  }

  lemma PositiveCells(cols: int, rows: int)
    requires cols >= 1 && rows >= 1
    ensures cols * rows >= 1
  {
    MulMono(cols, 1, rows);
  }

  /**
   * After a re-grid the grid has at least one column and row and cols * rows cells; the
   * first min(n, cells) windows sit in cells 0, 1, ... in list order and every other cell
   * is empty; nothing but grid indices changes in the list, and the bookkeeping holds.
   */
  lemma RegridKeepsInv(layout: Layout, b: Board, width: int, height: int)
    requires Tracked(layout, b)
    ensures var r := Regrid(layout, b, width, height);
      && Inv(layout, r)
      && (forall i :: 0 <= i < |r.cells| ==>
            r.cells[i] == if i < |b.windows| then Some(b.windows[i].id) else None)
      && |r.windows| == |b.windows|
      && (forall k :: 0 <= k < |r.windows| ==> r.windows[k] == b.windows[k].(gridIndex := r.windows[k].gridIndex))
      && r.counts == b.counts && r.nextId == b.nextId && r.pattern == b.pattern
  {
    var r := Regrid(layout, b, width, height);
    PositiveCells(r.cols, r.rows);
    forall p: Project
      ensures CountOf(r.windows, p) == CountOf(b.windows, p)
    {
      ReassignKeepsCounts(b.windows, r.cols * r.rows, p);
    }
  }

  lemma {:induction false} ReassignKeepsCounts(ws: seq<Win>, n: nat, p: Project)
    ensures CountOf(Reassigned(ws, n), p) == CountOf(ws, p)
  {
    if |ws| > 0 {
      var init := ws[..|ws| - 1];
      assert Reassigned(ws, n)[..|ws| - 1] == Reassigned(init, n);
      ReassignKeepsCounts(init, n, p);
    }
  }

  /** The re-assignment as recalculateGrid writes it: windows beyond the grid keep their old index. */
  function ReassignedAsWritten(ws: seq<Win>, n: nat): (ws': seq<Win>)
    ensures |ws'| == |ws|
  {
    seq(|ws|, k requires 0 <= k < |ws| => if k < n then ws[k].(gridIndex := k) else ws[k])
  }

  /** `recalculateGrid()` as written. */
  function RegridAsWritten(layout: Layout, b: Board, width: int, height: int): Board
  {
    var cols := CellsAcross(width, Stride(layout));
    var rows := CellsAcross(height, RowStride(layout));
    PositiveCells(cols, rows);
    b.(cols := cols, rows := rows, cells := CellsFor(b.windows, cols * rows),
       windows := ReassignedAsWritten(b.windows, cols * rows))
  }

  /**
   * A reachable board on a 2 x 1 grid: windows 0, 1 and 2 were created (2 got no cell),
   * 0 was closed and 3 was created in the freed cell 0.
   */
  function StaleScenario(): (b: Board)
    ensures AllCounted(b.counts)
  {
    var frame := Rect(0, 0, 0, 0);
    EveryProjectListed();
    Board([Win(1, CirclingCycle, 1, frame, false, frame), Win(2, CirclingCycle, -1, frame, false, frame),
           Win(3, CirclingCycle, 0, frame, false, frame)],
          4, map p: Project | p in Projects :: if p == CirclingCycle then 3 else 0,
          GridFill, [Some(3), Some(1)], 2, 1)
  }

  /** The scenario's container width, which gives two columns (and any height below 882 one row). */
  const StaleWidth := 846

  lemma StaleScenarioValid()
    ensures Inv(ModuleLayout, StaleScenario())
  {
    var b := StaleScenario();
    var ws := b.windows;
    assert ws[..2][..1][..0] == [];
    assert ws[..2] == ws[..|ws| - 1];
    assert ws[..2][..1] == ws[..2][..|ws[..2]| - 1];
    forall p: Project
      ensures b.counts[p] == CountOf(ws, p)
    {
      var one := if p == CirclingCycle then 1 else 0;
      assert CountOf(ws[..2][..1], p) == one;
      assert CountOf(ws[..2], p) == 2 * one;
      assert CountOf(ws, p) == 3 * one;
    }
  }

  /**
   * A window left beyond the grid keeps a stale grid index that names a cell now held by
   * another window. The re-grid puts 1 in cell 0 and 2 in cell 1 but leaves 3 at index 0;
   * closing 3 then marks cell 0 free while window 1's grid index still names it, and the
   * next grid-fill create is given cell 0 as well.
   */
  lemma StaleGridIndex()
    ensures var r := RegridAsWritten(ModuleLayout, StaleScenario(), StaleWidth, 0);
      var c := Closed(r, 3);
      && r.cells == [Some(1), Some(2)] && r.windows[2].id == 3 && r.windows[2].gridIndex == 0
      && !CellsHeld(r.windows, r.cells)
      && c.windows[0].id == 1 && c.windows[0].gridIndex == 0 && c.cells[0] == None
      && GridFillPlacement(ModuleLayout, c.cells, c.cols).gridIndex == 0
  {
    StaleScenarioValid();
    assert CellsAcross(StaleWidth, Stride(ModuleLayout)) == 2;
    var r := RegridAsWritten(ModuleLayout, StaleScenario(), StaleWidth, 0);
    assert r.windows[2] == StaleScenario().windows[2];
    assert FindIndex(r.windows, 3) == 2;
  }

  /** The corrected re-grid takes the same window off the grid, and every cell keeps one holder. */
  lemma StaleGridIndexCorrected()
    ensures var r := Regrid(ModuleLayout, StaleScenario(), StaleWidth, 0);
      r.windows[2].id == 3 && r.windows[2].gridIndex == -1 && Inv(ModuleLayout, r)
  {
    StaleScenarioValid();
    RegridKeepsInv(ModuleLayout, StaleScenario(), StaleWidth, 0);
    assert CellsAcross(StaleWidth, Stride(ModuleLayout)) == 2;
  }

  // ---------------------------------------------------------------------------
  // Placement
  // ---------------------------------------------------------------------------

  /** The first empty cell, or -1 when every cell is taken. */
  function FirstFree(cells: seq<Cell>): (i: int)
    ensures -1 <= i < |cells|
    ensures i >= 0 ==> cells[i] == None && forall j :: 0 <= j < i ==> cells[j].Some?
    ensures i == -1 ==> forall j :: 0 <= j < |cells| ==> cells[j].Some?
  {
    if |cells| == 0 then -1
    else if cells[0] == None then 0
    else
      var i := FirstFree(cells[1..]);
      assert forall j :: 1 <= j < |cells| ==> cells[j] == cells[1..][j - 1];
      if i < 0 then -1 else i + 1
  }

  /** `getGridFillPosition()`: the first empty cell, or the last cell with grid index -1. */
  function GridFillPlacement(layout: Layout, cells: seq<Cell>, cols: int): Placement
    requires cols >= 1 && |cells| >= 1
  {
    var i := FirstFree(cells);
    if i >= 0 then Placement(GridPosition(layout, i, cols), i)
    else Placement(GridPosition(layout, |cells| - 1, cols), -1)
  }

  /** The centre cell `getSpiralPosition` starts from. */
  function CentreCell(cols: int, rows: int): (c: int)
    requires cols >= 1 && rows >= 1
    ensures 0 <= c < cols * rows
  {
    CellIndexInRange(cols / 2, rows / 2, cols, rows);
    (rows / 2) * cols + cols / 2
  }

  /** The position along `order` of its first empty cell, or -1 when every listed cell is held. */
  function FirstFreeAlong(order: seq<int>, cells: seq<Cell>): (k: int)
    requires forall i :: 0 <= i < |order| ==> 0 <= order[i] < |cells|
    ensures -1 <= k < |order|
    ensures k >= 0 ==> cells[order[k]] == None && forall i :: 0 <= i < k ==> cells[order[i]].Some?
    ensures k == -1 ==> forall i :: 0 <= i < |order| ==> cells[order[i]].Some?
  {
    if |order| == 0 then -1
    else if cells[order[0]] == None then 0
    else
      var k := FirstFreeAlong(order[1..], cells);
      if k == -1 then -1 else k + 1
  }

  /**
   * `getSpiralPosition()` as a value: the first empty cell along the spiral listing
   * around the centre cell, or the first cell's corner with grid index -1 when none is empty.
   */
  ghost function SpiralPlacement(layout: Layout, cells: seq<Cell>, cols: int, rows: int): Placement
    requires cols >= 1 && rows >= 1 && |cells| == cols * rows
  {
    var order := SpiralListing(cols / 2, rows / 2, cols, rows);
    SpiralListingIsPermutation(cols / 2, rows / 2, cols, rows);
    var k := FirstFreeAlong(order, cells);
    if k == -1 then Placement(GridPosition(layout, 0, cols), -1)
    else Placement(GridPosition(layout, order[k], cols), order[k])
  }

  /**
   * The spiral placement is an empty cell, the centre whenever the centre is empty, and
   * -1 exactly when every cell is held.
   */
  lemma SpiralPlacementShape(layout: Layout, cells: seq<Cell>, cols: int, rows: int)
    requires cols >= 1 && rows >= 1 && |cells| == cols * rows
    ensures var place := SpiralPlacement(layout, cells, cols, rows);
      if place.gridIndex == -1 then
        place.pos == GridPosition(layout, 0, cols) && forall i :: 0 <= i < |cells| ==> cells[i].Some?
      else
        && 0 <= place.gridIndex < |cells| && cells[place.gridIndex] == None
        && place.pos == GridPosition(layout, place.gridIndex, cols)
        && (cells[CentreCell(cols, rows)] == None ==> place.gridIndex == CentreCell(cols, rows))
  {
    var order := SpiralListing(cols / 2, rows / 2, cols, rows);
    SpiralListingIsPermutation(cols / 2, rows / 2, cols, rows);
    var k := FirstFreeAlong(order, cells);
    if k == -1 {
      forall i | 0 <= i < |cells|
        ensures cells[i].Some?
      {
        assert i in order;
      }
    } else {
      if cells[CentreCell(cols, rows)] == None {
        assert order[0] == CentreCell(cols, rows);
        assert k == 0;
      }
    }
  }

  /**
   * What `getNextPosition()` may return for the current pattern: the grid fill's choice,
   * the first empty cell along the spiral (or the first cell with -1), the cascade corner,
   * or a caller-supplied spot for the random and burst patterns.
   */
  ghost predicate Placed(layout: Layout, b: Board, spot: Point, place: Placement)
  {
    && b.cols >= 1 && b.rows >= 1 && |b.cells| == b.cols * b.rows
    && match b.pattern
       case GridFill =>
         place == GridFillPlacement(layout, b.cells, b.cols)
       case Spiral =>
         place == SpiralPlacement(layout, b.cells, b.cols, b.rows)
       case Cascade =>
         place == Placement(CascadePosition(|b.windows|), -1)
       case _ =>
         place == Placement(spot, -1)
  }

  /** The placement never points at a cell another window holds. */
  ghost predicate Free(b: Board, place: Placement)
  {
    0 <= place.gridIndex < |b.cells| ==> b.cells[place.gridIndex] == None
  }

  lemma PlacedIsFree(layout: Layout, b: Board, spot: Point, place: Placement)
    requires Placed(layout, b, spot, place)
    ensures Free(b, place)
  {
    if b.pattern == Spiral {
      SpiralPlacementShape(layout, b.cells, b.cols, b.rows);
    }
  }

  // ---------------------------------------------------------------------------
  // getRandomProject
  // ---------------------------------------------------------------------------

  /** `PROJECTS.filter(p => projectCounts[p] < cap)`, in PROJECTS order. */
  function Under(ps: seq<Project>, counts: map<Project, int>, cap: nat): (r: seq<Project>)
    requires AllCounted(counts)
    ensures forall p :: p in r <==> p in ps && counts[p] < cap
    ensures |r| <= |ps|
  {
    if |ps| == 0 then []
    else
      var rest := Under(ps[1..], counts, cap);
      assert forall p :: p in ps <==> p == ps[0] || p in ps[1..];
      if counts[ps[0]] < cap then [ps[0]] + rest else rest
  }

  /**
   * `getRandomProject()` with `pick` standing for `Math.random()`: null when every
   * project is at the cap, otherwise the project at floor(pick * available.length).
   */
  function RandomProject(counts: map<Project, int>, cap: nat, pick: real): (r: Option<Project>)
    requires AllCounted(counts) && 0.0 <= pick < 1.0
    ensures r.None? <==> forall p: Project :: counts[p] >= cap
    ensures r.Some? ==> counts[r.value] < cap
  {
    var available := Under(Projects, counts, cap);
    if |available| == 0 then
      assert forall p: Project :: counts[p] >= cap by {
        forall p: Project ensures counts[p] >= cap {
          ProjectsListsEveryProject(p);
          assert p !in available;
        }
      }
      None
    else
      var i := Stats.PickIndex(pick, |available|);
      assert available[i] in available;
      Some(available[i])
  }

  // ---------------------------------------------------------------------------
  // createVirtualWindowWithProject
  // ---------------------------------------------------------------------------

  /** The record a successful create tracks: the default outer size at the placement. */
  function NewWindow(layout: Layout, id: nat, project: Project, place: Placement): Win
  {
    var frame := Rect(place.pos.x, place.pos.y, TotalWidth(layout), TotalHeight(layout));
    Win(id, project, place.gridIndex, frame, false, frame)
  }

  /** The placement a window was created with. */
  function PlacementOf(w: Win): Placement
  {
    Placement(Point(w.frame.left, w.frame.top), w.gridIndex)
  }

  /**
   * `createVirtualWindowWithProject(project)` with the placement `place`: null at the
   * window cap or the project cap; otherwise the window is appended with the next id.
   */
  function Created(layout: Layout, b: Board, project: Project, place: Placement): (Board, Option<Win>)
    requires AllCounted(b.counts)
  {
    if |b.windows| >= layout.maxWindows then (b, None)
    else if b.counts[project] >= layout.maxPerProject then (b, None)
    else
      var w := NewWindow(layout, b.nextId, project, place);
      var g := place.gridIndex;
      (b.(windows := b.windows + [w], nextId := b.nextId + 1,
          counts := b.counts[project := b.counts[project] + 1],
          cells := if 0 <= g < |b.cells| then b.cells[g := Some(w.id)] else b.cells),
       Some(w))
  }

  /**
   * A create is refused, changing nothing, exactly at the caps. Otherwise it appends
   * one window at the end whose id is the old counter, raises the counter and that
   * project's count by one, fills the window's cell only when it lies in the grid, and
   * keeps the bookkeeping.
   */
  lemma CreatedOutcome(layout: Layout, b: Board, project: Project, place: Placement)
    requires Inv(layout, b)
    ensures var (r, win) := Created(layout, b, project, place);
      && (win.None? <==> |b.windows| >= layout.maxWindows || CountOf(b.windows, project) >= layout.maxPerProject)
      && (win.None? ==> r == b)
      && (win.Some? ==>
            && r.windows == b.windows + [win.value]
            && win.value.id == b.nextId && r.nextId == b.nextId + 1
            && win.value.project == project && PlacementOf(win.value) == place
            && (forall p: Project :: r.counts[p] == b.counts[p] + (if p == project then 1 else 0))
            && (forall i :: 0 <= i < |r.cells| ==>
                  r.cells[i] == if i == place.gridIndex then Some(win.value.id) else b.cells[i]))
  {
  }

  lemma CreatedKeepsInv(layout: Layout, b: Board, project: Project, place: Placement)
    requires Inv(layout, b) && Free(b, place)
    ensures Inv(layout, Created(layout, b, project, place).0)
  {
    if |b.windows| < layout.maxWindows && b.counts[project] < layout.maxPerProject {
      var w := NewWindow(layout, b.nextId, project, place);
      var cells := if 0 <= place.gridIndex < |b.cells| then b.cells[place.gridIndex := Some(w.id)] else b.cells;
      var r := b.(windows := b.windows + [w], nextId := b.nextId + 1,
                  counts := b.counts[project := b.counts[project] + 1], cells := cells);
      assert Created(layout, b, project, place).0 == r;
      AppendKeepsInv(layout, b, w, r);
    }
  }

  lemma AppendKeepsInv(layout: Layout, b: Board, w: Win, r: Board)
    requires Inv(layout, b) && w.id == b.nextId && |b.windows| < layout.maxWindows
    requires b.counts[w.project] < layout.maxPerProject
    requires 0 <= w.gridIndex < |b.cells| ==> b.cells[w.gridIndex] == None
    requires r == b.(windows := b.windows + [w], nextId := b.nextId + 1,
                     counts := b.counts[w.project := b.counts[w.project] + 1],
                     cells := if 0 <= w.gridIndex < |b.cells| then b.cells[w.gridIndex := Some(w.id)] else b.cells)
    ensures Inv(layout, r)
  {
    AppendKeepsCounts(layout, b.windows, b.counts, w);
    AppendKeepsIds(b.windows, b.nextId, w);
    AppendKeepsCells(b.windows, b.cells, w);
  }

  lemma AppendKeepsCounts(layout: Layout, ws: seq<Win>, counts: map<Project, int>, w: Win)
    requires CountsMatch(ws, counts) && counts[w.project] < layout.maxPerProject
    requires forall p: Project :: CountOf(ws, p) <= layout.maxPerProject
    ensures CountsMatch(ws + [w], counts[w.project := counts[w.project] + 1])
    ensures forall p: Project :: CountOf(ws + [w], p) <= layout.maxPerProject
  {
    forall p: Project
      ensures CountOf(ws + [w], p) == CountOf(ws, p) + (if w.project == p then 1 else 0)
    {
      CountAppend(ws, w, p);
    }
  }

  lemma CountAppend(ws: seq<Win>, w: Win, p: Project)
    ensures CountOf(ws + [w], p) == CountOf(ws, p) + (if w.project == p then 1 else 0)
  {
    assert (ws + [w])[..|ws|] == ws;
  }

  lemma AppendKeepsIds(ws: seq<Win>, nextId: nat, w: Win)
    requires IdsIncreasing(ws, nextId) && w.id == nextId
    ensures IdsIncreasing(ws + [w], nextId + 1)
  {
  }

  lemma AppendKeepsCells(ws: seq<Win>, cells: seq<Cell>, w: Win)
    requires CellsHeld(ws, cells)
    requires 0 <= w.gridIndex < |cells| ==> cells[w.gridIndex] == None
    ensures CellsHeld(ws + [w], if 0 <= w.gridIndex < |cells| then cells[w.gridIndex := Some(w.id)] else cells)
  {
    var ws', cells' := ws + [w], if 0 <= w.gridIndex < |cells| then cells[w.gridIndex := Some(w.id)] else cells;
    forall k | 0 <= k < |ws'| && 0 <= ws'[k].gridIndex < |cells'|
      ensures cells'[ws'[k].gridIndex] == Some(ws'[k].id)
    {
      if k < |ws| {
        assert ws'[k] == ws[k];
        assert cells[ws[k].gridIndex] == Some(ws[k].id);
      }
    }
  }

  // ---------------------------------------------------------------------------
  // closeVirtualWindow, closeOldestWindow, closeAllWindows
  // ---------------------------------------------------------------------------

  /** Frees the cell of `w` when its grid index lies in the grid. */
  function Vacate(cells: seq<Cell>, w: Win): (r: seq<Cell>)
    ensures |r| == |cells|
  {
    if 0 <= w.gridIndex < |cells| then cells[w.gridIndex := None] else cells
  }

  /** `closeVirtualWindow(id)`: an unknown id changes nothing. */
  function Closed(b: Board, id: nat): Board
    requires AllCounted(b.counts)
  {
    var k := FindIndex(b.windows, id);
    if k < 0 then b
    else
      var w := b.windows[k];
      b.(cells := Vacate(b.cells, w),
         windows := b.windows[..k] + b.windows[k + 1..],
         counts := b.counts[w.project := b.counts[w.project] - 1])
  }

  /**
   * Closing an unknown id changes nothing. Closing a listed window removes exactly that
   * window, keeps the others in order, frees its cell when it lies in the grid, lowers
   * its project's count by one and keeps the bookkeeping.
   */
  lemma ClosedKeepsInv(layout: Layout, b: Board, id: nat)
    requires Inv(layout, b)
    ensures var r := Closed(b, id);
      && Inv(layout, r)
      && ((forall j :: 0 <= j < |b.windows| ==> b.windows[j].id != id) ==> r == b)
      && (forall k :: 0 <= k < |b.windows| && b.windows[k].id == id ==>
            && r.windows == b.windows[..k] + b.windows[k + 1..]
            && r.cells == Vacate(b.cells, b.windows[k])
            && (forall p: Project :: r.counts[p] == b.counts[p] - (if p == b.windows[k].project then 1 else 0)))
  {
    var k := FindIndex(b.windows, id);
    IdsDistinct(b.windows, b.nextId);
    if k >= 0 {
      var w := b.windows[k];
      var r := b.(cells := Vacate(b.cells, w), windows := b.windows[..k] + b.windows[k + 1..],
                  counts := b.counts[w.project := b.counts[w.project] - 1]);
      assert Closed(b, id) == r;
      RemoveKeepsInv(layout, b, k, r);
    }
  }

  lemma RemoveKeepsInv(layout: Layout, b: Board, k: nat, r: Board)
    requires Inv(layout, b) && k < |b.windows|
    requires r == b.(cells := Vacate(b.cells, b.windows[k]), windows := b.windows[..k] + b.windows[k + 1..],
                     counts := b.counts[b.windows[k].project := b.counts[b.windows[k].project] - 1])
    ensures Inv(layout, r)
  {
    forall p: Project
      ensures CountOf(r.windows, p) == CountOf(b.windows, p) - (if p == b.windows[k].project then 1 else 0)
    {
      CountRemove(b.windows, k, p);
    }
    RemoveKeepsIds(b.windows, b.nextId, k);
    RemoveKeepsCells(b.windows, b.nextId, b.cells, k);
  }

  lemma RemoveKeepsIds(ws: seq<Win>, nextId: nat, k: nat)
    requires IdsIncreasing(ws, nextId) && k < |ws|
    ensures IdsIncreasing(ws[..k] + ws[k + 1..], nextId)
  {
    var ws' := ws[..k] + ws[k + 1..];
    assert forall i :: 0 <= i < |ws'| ==> ws'[i] == if i < k then ws[i] else ws[i + 1];
    forall i, j | 0 <= i < j < |ws'|
      ensures ws'[i].id < ws'[j].id
    {
      var i', j' := if i < k then i else i + 1, if j < k then j else j + 1;
      assert ws'[i] == ws[i'] && ws'[j] == ws[j'] && i' < j';
    }
  }

  lemma RemoveKeepsCells(ws: seq<Win>, nextId: nat, cells: seq<Cell>, k: nat)
    requires IdsIncreasing(ws, nextId) && CellsHeld(ws, cells) && k < |ws|
    ensures CellsHeld(ws[..k] + ws[k + 1..], Vacate(cells, ws[k]))
  {
    var ws', cells' := ws[..k] + ws[k + 1..], Vacate(cells, ws[k]);
    IdsDistinct(ws, nextId);
    forall m | 0 <= m < |ws'| && 0 <= ws'[m].gridIndex < |cells'|
      ensures cells'[ws'[m].gridIndex] == Some(ws'[m].id)
    {
      var m' := if m < k then m else m + 1;
      assert ws'[m] == ws[m'] && m' != k;
      assert cells[ws[m'].gridIndex] == Some(ws[m'].id);
      assert ws[m'].id != ws[k].id;
    }
  }

  /** Closing the window at list index k, spelled out. */
  lemma ClosedAt(layout: Layout, b: Board, k: nat)
    requires Inv(layout, b) && k < |b.windows|
    ensures var w := b.windows[k];
      var r := b.(cells := Vacate(b.cells, w), windows := b.windows[..k] + b.windows[k + 1..],
                  counts := b.counts[w.project := b.counts[w.project] - 1]);
      Closed(b, w.id) == r && Inv(layout, r)
  {
    ClosedKeepsInv(layout, b, b.windows[k].id);
  }

  /** `closeOldestWindow()`: with at least MIN_WINDOWS_TO_CLOSE windows, close the first. */
  function ClosedOldest(b: Board): Board
    requires AllCounted(b.counts)
  {
    if |b.windows| < MinWindowsToClose then b
    else Closed(b, b.windows[0].id)
  }

  /**
   * Below MIN_WINDOWS_TO_CLOSE windows nothing changes; otherwise the head of the list,
   * the window with the smallest id, is removed and the rest keep their order.
   */
  lemma ClosedOldestIsFifo(layout: Layout, b: Board)
    requires Inv(layout, b)
    ensures var r := ClosedOldest(b);
      && Inv(layout, r)
      && (|b.windows| < MinWindowsToClose ==> r == b)
      && (|b.windows| >= MinWindowsToClose ==>
            && r.windows == b.windows[1..]
            && forall j :: 1 <= j < |b.windows| ==> b.windows[0].id < b.windows[j].id)
  {
    if |b.windows| >= MinWindowsToClose {
      ClosedAt(layout, b, 0);
      assert b.windows[..0] + b.windows[1..] == b.windows[1..];
      OldestSmallest(b.windows, b.nextId);
    }
  }

  lemma OldestSmallest(ws: seq<Win>, nextId: nat)
    requires IdsIncreasing(ws, nextId) && |ws| > 0
    ensures forall j :: 1 <= j < |ws| ==> ws[0].id < ws[j].id
  {
  }

  /** One step of `closeAllWindows()`: the last window is popped and its cell freed. */
  function PopLast(b: Board): Board
    requires AllCounted(b.counts) && |b.windows| > 0
  {
    var w := b.windows[|b.windows| - 1];
    b.(cells := Vacate(b.cells, w), windows := b.windows[..|b.windows| - 1],
       counts := b.counts[w.project := b.counts[w.project] - 1])
  }

  /** `closeAllWindows()`: pop from the newest to the oldest. */
  function ClosedAll(b: Board): (r: Board)
    requires AllCounted(b.counts)
    ensures AllCounted(r.counts)
    decreases |b.windows|
  {
    if |b.windows| == 0 then b else ClosedAll(PopLast(b))
  }

  lemma PopLastKeepsInv(layout: Layout, b: Board)
    requires Inv(layout, b) && |b.windows| > 0
    ensures Inv(layout, PopLast(b))
  {
    PopLastIsCloseNewest(layout, b);
  }

  /** Popping the last window is closing the newest one. */
  lemma PopLastIsCloseNewest(layout: Layout, b: Board)
    requires Inv(layout, b) && |b.windows| > 0
    ensures PopLast(b) == Closed(b, b.windows[|b.windows| - 1].id)
    ensures Inv(layout, PopLast(b))
  {
    var n := |b.windows|;
    ClosedKeepsInv(layout, b, b.windows[n - 1].id);
    assert b.windows[..n - 1] + b.windows[n..] == b.windows[..n - 1];
  }

  /**
   * Closing all leaves no windows and every count at 0, keeps the id counter and the
   * grid's shape, and frees exactly the cells the windows held.
   */
  lemma {:induction false} ClosedAllEmpties(layout: Layout, b: Board)
    requires Inv(layout, b)
    ensures var r := ClosedAll(b);
      && Inv(layout, r)
      && r.windows == [] && (forall p: Project :: r.counts[p] == 0)
      && r.nextId == b.nextId && r.cols == b.cols && r.rows == b.rows && |r.cells| == |b.cells|
      && (forall k :: 0 <= k < |b.windows| && 0 <= b.windows[k].gridIndex < |b.cells| ==>
            r.cells[b.windows[k].gridIndex] == None)
      && (forall i :: 0 <= i < |b.cells| && r.cells[i] != b.cells[i] ==> r.cells[i] == None)
    decreases |b.windows|
  {
    if |b.windows| > 0 {
      var b' := PopLast(b);
      PopLastKeepsInv(layout, b);
      ClosedAllEmpties(layout, b');
      var w := b.windows[|b.windows| - 1];
      forall k | 0 <= k < |b.windows| && 0 <= b.windows[k].gridIndex < |b.cells|
        ensures ClosedAll(b).cells[b.windows[k].gridIndex] == None
      {
        if k < |b.windows| - 1 {
          assert b'.windows[k] == b.windows[k];
        } else {
          assert b'.cells[w.gridIndex] == None;
        }
      }
    } else {
      forall p: Project
        ensures b.counts[p] == 0
      {
        assert CountOf(b.windows, p) == 0;
      }
    }
  }

  // ---------------------------------------------------------------------------
  // toggleMaximize and resizeWindow
  // ---------------------------------------------------------------------------

  /** Maximize to the container (saving the frame) or restore the saved frame. */
  function Toggle(w: Win, width: int, height: int): Win
  {
    if w.isMaximized then w.(frame := w.prev, isMaximized := false)
    else w.(prev := w.frame, frame := Rect(0, 0, width, height), isMaximized := true)
  }

  /** `toggleMaximize(id)` in a container of `width` x `height`; unknown ids change nothing. */
  function Toggled(b: Board, id: nat, width: int, height: int): Board
  {
    var k := FindIndex(b.windows, id);
    if k < 0 then b else b.(windows := b.windows[k := Toggle(b.windows[k], width, height)])
  }

  /**
   * Maximizing or restoring a window keeps the board's invariant: the windows, their
   * projects and their cells stay as they were.
   */
  lemma ToggledKeepsInv(layout: Layout, b: Board, id: nat, width: int, height: int)
    requires Inv(layout, b)
    ensures Inv(layout, Toggled(b, id, width, height))
  {
    var k := FindIndex(b.windows, id);
    if k >= 0 {
      forall p: Project
        ensures CountOf(Toggled(b, id, width, height).windows, p) == CountOf(b.windows, p)
      {
        UpdateKeepsCounts(b.windows, k, Toggle(b.windows[k], width, height), p);
      }
    }
  }

  /**
   * Maximizing fills the container; toggling twice from a restored window gives back
   * its frame and clears the maximized flag. Only the toggled window changes.
   */
  lemma ToggleTwiceRestores(layout: Layout, b: Board, id: nat, width: int, height: int)
    requires Inv(layout, b)
    ensures var once := Toggled(b, id, width, height);
      var twice := Toggled(once, id, width, height);
      && |twice.windows| == |b.windows|
      && forall k :: 0 <= k < |b.windows| ==>
           if b.windows[k].id != id then once.windows[k] == b.windows[k] && twice.windows[k] == b.windows[k]
           else
             && (!b.windows[k].isMaximized ==> once.windows[k].frame == Rect(0, 0, width, height))
             && (!b.windows[k].isMaximized ==> twice.windows[k].frame == b.windows[k].frame)
             && twice.windows[k].isMaximized == b.windows[k].isMaximized
  {
    var once := Toggled(b, id, width, height);
    var k := FindIndex(b.windows, id);
    if k >= 0 {
      assert FindIndex(once.windows, id) == k by {
        assert forall j :: 0 <= j < |b.windows| ==> once.windows[j].id == b.windows[j].id;
      }
      IdsDistinct(b.windows, b.nextId);
    }
  }

  lemma UpdateKeepsCounts(ws: seq<Win>, k: nat, w: Win, p: Project)
    requires k < |ws| && w.project == ws[k].project
    ensures CountOf(ws[k := w], p) == CountOf(ws, p)
  {
    CountRemove(ws, k, p);
    CountRemove(ws[k := w], k, p);
    assert ws[k := w][..k] + ws[k := w][k + 1..] == ws[..k] + ws[k + 1..];
  }

  function Max(a: int, b: int): int { if a >= b then a else b }
  function Min(a: int, b: int): int { if a <= b then a else b }

  /** `Math.max(WINDOW_GAP, Math.min(x, hi))`. */
  function Clamp(x: int, hi: int): (c: int)
    ensures c >= WindowGap
    ensures hi >= WindowGap ==> c <= hi
    ensures WindowGap <= x <= hi ==> c == x
  {
    Max(WindowGap, Min(x, hi))
  }

  /** The outer frame for content of `contentWidth` x `contentHeight`, clamped into the container. */
  function Resize(w: Win, contentWidth: int, contentHeight: int, width: int, height: int): Win
  {
    var totalWidth := contentWidth + ChromePadding;
    var totalHeight := contentHeight + TitlebarHeight + ChromePadding;
    w.(frame := Rect(Clamp(w.frame.left, width - totalWidth - WindowGap),
                     Clamp(w.frame.top, height - totalHeight - WindowGap),
                     totalWidth, totalHeight))
  }

  /** `resizeWindow(id, contentWidth, contentHeight)`; unknown ids change nothing. */
  function Resized(b: Board, id: nat, contentWidth: int, contentHeight: int, width: int, height: int): Board
  {
    var k := FindIndex(b.windows, id);
    if k < 0 then b else b.(windows := b.windows[k := Resize(b.windows[k], contentWidth, contentHeight, width, height)])
  }

  lemma ResizedKeepsInv(layout: Layout, b: Board, id: nat, contentWidth: int, contentHeight: int,
                        width: int, height: int)
    requires Inv(layout, b)
    ensures Inv(layout, Resized(b, id, contentWidth, contentHeight, width, height))
  {
    var k := FindIndex(b.windows, id);
    if k >= 0 {
      forall p: Project
        ensures CountOf(Resized(b, id, contentWidth, contentHeight, width, height).windows, p) == CountOf(b.windows, p)
      {
        UpdateKeepsCounts(b.windows, k, Resize(b.windows[k], contentWidth, contentHeight, width, height), p);
      }
    }
  }

  /**
   * A resized window takes the content size plus chrome, its corner stays at least
   * WINDOW_GAP from the container's top-left, and when it fits it ends at least
   * WINDOW_GAP inside the right and bottom edges; a corner already in range stays put.
   */
  lemma ResizedStaysInside(layout: Layout, b: Board, id: nat, contentWidth: int, contentHeight: int,
                           width: int, height: int)
    requires Inv(layout, b)
    ensures var r := Resized(b, id, contentWidth, contentHeight, width, height);
      && |r.windows| == |b.windows|
      && forall k :: 0 <= k < |b.windows| && b.windows[k].id == id ==>
           var f := r.windows[k].frame;
           var totalWidth := contentWidth + ChromePadding;
           var totalHeight := contentHeight + TitlebarHeight + ChromePadding;
           && f.width == totalWidth && f.height == totalHeight
           && f.left >= WindowGap && f.top >= WindowGap
           && (width - totalWidth - WindowGap >= WindowGap ==> f.left + totalWidth + WindowGap <= width)
           && (height - totalHeight - WindowGap >= WindowGap ==> f.top + totalHeight + WindowGap <= height)
           && (WindowGap <= b.windows[k].frame.left <= width - totalWidth - WindowGap ==> f.left == b.windows[k].frame.left)
           && (WindowGap <= b.windows[k].frame.top <= height - totalHeight - WindowGap ==> f.top == b.windows[k].frame.top)
  {
    IdsDistinct(b.windows, b.nextId);
  }


  /**
   * The re-assignment loop of `recalculateGrid()` over a fresh all-null grid of `n`
   * cells: window idx takes cell idx while idx is in the grid, and is taken off the
   * grid otherwise.
   */
  method AssignCells(ws: seq<Win>, n: nat) returns (grid: seq<Cell>, ws': seq<Win>)
    ensures grid == CellsFor(ws, n) && ws' == Reassigned(ws, n)
  {
    grid := seq(n, _ => None);
    ws' := ws;
    var idx := 0;
    while idx < |ws'|
      invariant 0 <= idx <= |ws'| == |ws| && |grid| == n
      invariant forall i :: 0 <= i < n ==> grid[i] == if i < idx then Some(ws[i].id) else None
      invariant forall k :: 0 <= k < |ws'| ==> ws'[k] == if k < idx then Reassigned(ws, n)[k] else ws[k]
    {
      if idx < |grid| {
        grid := grid[idx := Some(ws'[idx].id)];
        ws' := ws'[idx := ws'[idx].(gridIndex := idx)];
      } else {
        ws' := ws'[idx := ws'[idx].(gridIndex := -1)];
      }
      idx := idx + 1;
    }
  }

  // ---------------------------------------------------------------------------
  // The manager
  // ---------------------------------------------------------------------------

  /**
   * The module-level `state` of the window manager. `layout` holds the sizes and caps
   * (ModuleLayout for windows.js, LegacyLayout for renderer.js).
   */
  class WindowManager {
    const layout: Layout
    var windows: seq<Win>
    var nextId: nat
    var counts: map<Project, int>
    var pattern: Pattern
    var cells: seq<Cell>
    var cols: int
    var rows: int

    function State(): Board
      reads this
    {
      Board(windows, nextId, counts, pattern, cells, cols, rows)
    }

    ghost predicate Valid()
      reads this
    {
      Inv(layout, State())
    }

    /** The initial state followed by the `recalculateGrid()` that start-up runs. */
    constructor (layout: Layout, pattern: Pattern, width: int, height: int)
      ensures this.layout == layout && Valid()
      ensures State() == Regrid(layout, Initial(pattern), width, height)
    {
      this.layout := layout;
      windows := [];
      nextId := 0;
      counts := map p: Project | p in Projects :: 0;
      this.pattern := pattern;
      cells := [];
      cols := 0;
      rows := 0;
      new;
      InitialTracked(layout, pattern);
      RecalculateGrid(width, height);
    }

    /**
     * `recalculateGrid()`: recompute the grid for a `width` x `height` container and put
     * the windows into cells 0, 1, ... in list order; the windows beyond the grid are
     * taken off it.
     */
    method RecalculateGrid(width: int, height: int)
      requires Tracked(layout, State())
      modifies this
      ensures Valid() && State() == Regrid(layout, old(State()), width, height)
    {
      ghost var before := State();
      RegridKeepsInv(layout, before, width, height);
      cols := CellsAcross(width, Stride(layout));
      rows := CellsAcross(height, RowStride(layout));
      PositiveCells(cols, rows);
      cells, windows := AssignCells(windows, cols * rows);
      assert State() == Regrid(layout, before, width, height);
    }

    /** Switch the placement pattern; the pattern menu re-grids straight after. */
    method SetPattern(p: Pattern, width: int, height: int)
      requires Valid()
      modifies this
      ensures Valid() && State() == Regrid(layout, old(State()).(pattern := p), width, height)
    {
      pattern := p;
      RecalculateGrid(width, height);
    }

    /** `getGridFillPosition()`: the first empty cell, or the last cell with grid index -1. */
    method GridFillPosition() returns (place: Placement)
      requires Valid()
      ensures place == GridFillPlacement(layout, cells, cols)
      ensures 0 <= place.gridIndex ==> cells[place.gridIndex] == None
      ensures place.gridIndex == -1 <==> forall i :: 0 <= i < |cells| ==> cells[i].Some?
    {
      PositiveCells(cols, rows);
      var i := 0;
      while i < |cells|
        invariant 0 <= i <= |cells|
        invariant forall j :: 0 <= j < i ==> cells[j].Some?
      {
        if cells[i] == None {
          return Placement(GridPosition(layout, i, cols), i);
        }
        i := i + 1;
      }
      return Placement(GridPosition(layout, |cells| - 1, cols), -1);
    }

    /**
     * `getSpiralPosition()`: the first empty cell in the spiral order around the centre
     * cell, or the first cell with grid index -1 when the grid is full.
     */
    method SpiralPosition() returns (place: Placement)
      requires Valid()
      ensures place == SpiralPlacement(layout, cells, cols, rows)
      ensures if place.gridIndex == -1 then
                place.pos == GridPosition(layout, 0, cols) && forall i :: 0 <= i < |cells| ==> cells[i].Some?
              else
                && 0 <= place.gridIndex < |cells| && cells[place.gridIndex] == None
                && place.pos == GridPosition(layout, place.gridIndex, cols)
                && (cells[CentreCell(cols, rows)] == None ==> place.gridIndex == CentreCell(cols, rows))
    {
      SpiralPlacementShape(layout, cells, cols, rows);
      var centreCol := cols / 2;
      var centreRow := rows / 2;
      var order := SpiralOrder(centreCol, centreRow, cols, rows);
      var k := 0;
      while k < |order|
        invariant 0 <= k <= |order|
        invariant forall j :: 0 <= j < k ==> cells[order[j]].Some?
      {
        var idx := order[k];
        if cells[idx] == None {
          assert FirstFreeAlong(order, cells) == k;
          return Placement(GridPosition(layout, idx, cols), idx);
        }
        k := k + 1;
      }
      assert FirstFreeAlong(order, cells) == -1;
      return Placement(GridPosition(layout, 0, cols), -1);
    }

    /**
     * `getNextPosition()`: dispatch on the pattern. `spot` stands for the corner the random
     * and burst patterns compute from Math.random and the container size.
     */
    method NextPosition(spot: Point) returns (place: Placement)
      requires Valid()
      ensures Placed(layout, State(), spot, place)
    {
      match pattern
      case GridFill =>
        place := GridFillPosition();
      case Spiral =>
        place := SpiralPosition();
      case Cascade =>
        place := Placement(CascadePosition(|windows|), -1);
      case RandomSpot =>
        place := Placement(spot, -1);
      case Burst =>
        place := Placement(spot, -1);
    }

    /**
     * `createVirtualWindowWithProject(project)`: null at either cap with nothing changed;
     * otherwise the window at the next position is tracked and returned.
     */
    method CreateWithProject(project: Project, spot: Point) returns (win: Option<Win>)
      requires Valid()
      modifies this
      ensures Valid()
      ensures win.None? ==> State() == old(State())
      ensures win.Some? ==> Placed(layout, old(State()), spot, PlacementOf(win.value))
      ensures (State(), win) == Created(layout, old(State()), project,
                                        if win.Some? then PlacementOf(win.value) else Placement(spot, -1))
    {
      if |windows| >= layout.maxWindows {
        return None;
      }
      if counts[project] >= layout.maxPerProject {
        return None;
      }
      var place := NextPosition(spot);
      PlacedIsFree(layout, State(), spot, place);
      win := Track(project, place);
    }

    /** The bookkeeping of a create that passed both caps. */
    method Track(project: Project, place: Placement) returns (win: Option<Win>)
      requires Valid() && Free(State(), place)
      requires |windows| < layout.maxWindows && counts[project] < layout.maxPerProject
      modifies this
      ensures Valid() && (State(), win) == Created(layout, old(State()), project, place)
    {
      ghost var before := State();
      CreatedKeepsInv(layout, before, project, place);
      var id := nextId;
      nextId := nextId + 1;
      var w := NewWindow(layout, id, project, place);
      windows := windows + [w];
      counts := counts[project := counts[project] + 1];
      if 0 <= place.gridIndex < |cells| {
        cells := cells[place.gridIndex := Some(id)];
      }
      win := Some(w);
      assert (State(), win) == Created(layout, before, project, place);
    }

    /**
     * `createVirtualWindow()`: null when the list is full or no project is under its cap;
     * otherwise a window of the project `pick` selects among those under the cap.
     */
    method Create(pick: real, spot: Point) returns (win: Option<Win>)
      requires Valid() && 0.0 <= pick < 1.0
      modifies this
      ensures Valid()
      ensures win.None? ==> State() == old(State())
      ensures win.None? <==> |old(windows)| >= layout.maxWindows
                             || forall p: Project :: old(counts)[p] >= layout.maxPerProject
      ensures win.Some? ==>
                && win.value.project == RandomProject(old(counts), layout.maxPerProject, pick).value
                && Placed(layout, old(State()), spot, PlacementOf(win.value))
                && (State(), win) == Created(layout, old(State()), win.value.project, PlacementOf(win.value))
    {
      if |windows| >= layout.maxWindows {
        return None;
      }
      var project := RandomProject(counts, layout.maxPerProject, pick);
      if project.None? {
        return None;
      }
      win := CreateWithProject(project.value, spot);
    }

    /** `closeVirtualWindow(id)`: an unknown id changes nothing. */
    method Close(id: nat)
      requires Valid()
      modifies this
      ensures Valid() && State() == Closed(old(State()), id)
    {
      var idx := FindWindow(id);
      if idx == -1 {
        return;
      }
      Untrack(idx);
    }

    /** The bookkeeping of closing the window at list index `idx`. */
    method Untrack(idx: nat)
      requires Valid() && idx < |windows|
      modifies this
      ensures Valid() && State() == Closed(old(State()), old(windows[idx].id))
    {
      ghost var before := State();
      var w := windows[idx];
      ClosedAt(layout, before, idx);
      if 0 <= w.gridIndex < |cells| {
        cells := cells[w.gridIndex := None];
      }
      windows := windows[..idx] + windows[idx + 1..];
      counts := counts[w.project := counts[w.project] - 1];
      assert cells == Vacate(before.cells, w);
      assert State() == before.(cells := Vacate(before.cells, w), windows := before.windows[..idx] + before.windows[idx + 1..],
                                counts := before.counts[w.project := before.counts[w.project] - 1]);
    }

    /** `findIndex(w => w.id === id)` over the list. */
    method FindWindow(id: nat) returns (idx: int)
      ensures idx == FindIndex(windows, id)
    {
      idx := 0;
      while idx < |windows|
        invariant 0 <= idx <= |windows|
        invariant forall j :: 0 <= j < idx ==> windows[j].id != id
      {
        if windows[idx].id == id {
          return;
        }
        idx := idx + 1;
      }
      idx := -1;
    }

    /** `closeOldestWindow()`: below MIN_WINDOWS_TO_CLOSE windows nothing happens. */
    method CloseOldest()
      requires Valid()
      modifies this
      ensures Valid() && State() == ClosedOldest(old(State()))
    {
      if |windows| < MinWindowsToClose {
        return;
      }
      if |windows| == 0 {
        return;
      }
      Close(windows[0].id);
    }

    /** `closeAllWindows()`: pop from the newest to the oldest, freeing each cell. */
    method CloseAll()
      requires Valid()
      modifies this
      ensures Valid() && State() == ClosedAll(old(State()))
    {
      while |windows| > 0
        invariant Valid() && ClosedAll(State()) == ClosedAll(old(State()))
        decreases |windows|
      {
        PopNewest();
      }
    }

    /** One round of the `closeAllWindows()` loop. */
    method PopNewest()
      requires Valid() && |windows| > 0
      modifies this
      ensures Valid() && State() == PopLast(old(State()))
    {
      ghost var before := State();
      PopLastKeepsInv(layout, before);
      var w := windows[|windows| - 1];
      if 0 <= w.gridIndex < |cells| {
        cells := cells[w.gridIndex := None];
      }
      counts := counts[w.project := counts[w.project] - 1];
      windows := windows[..|windows| - 1];
      assert cells == Vacate(before.cells, w);
      assert State() == PopLast(before);
    }

    /** `toggleMaximize(id)` in a `width` x `height` container. */
    method ToggleMaximize(id: nat, width: int, height: int)
      requires Valid()
      modifies this
      ensures Valid() && State() == Toggled(old(State()), id, width, height)
    {
      ToggledKeepsInv(layout, State(), id, width, height);
      var idx := FindWindow(id);
      if idx == -1 {
        return;
      }
      var w := windows[idx];
      if w.isMaximized {
        w := w.(frame := w.prev, isMaximized := false);
      } else {
        w := w.(prev := w.frame, frame := Rect(0, 0, width, height), isMaximized := true);
      }
      windows := windows[idx := w];
    }

    /** `resizeWindow(id, contentWidth, contentHeight)` in a `width` x `height` container. */
    method ResizeWindow(id: nat, contentWidth: int, contentHeight: int, width: int, height: int)
      requires Valid()
      modifies this
      ensures Valid() && State() == Resized(old(State()), id, contentWidth, contentHeight, width, height)
    {
      ResizedKeepsInv(layout, State(), id, contentWidth, contentHeight, width, height);
      var idx := FindWindow(id);
      if idx == -1 {
        return;
      }
      var w := windows[idx];
      var totalWidth := contentWidth + ChromePadding;
      var totalHeight := contentHeight + TitlebarHeight + ChromePadding;
      var x := Max(WindowGap, Min(w.frame.left, width - totalWidth - WindowGap));
      var y := Max(WindowGap, Min(w.frame.top, height - totalHeight - WindowGap));
      windows := windows[idx := w.(frame := Rect(x, y, totalWidth, totalHeight))];
    }
  }
}
