/** Placing the items of a grid: resolving their lines, and the search for free cells for the items
    that leave a line open. */
module GridPlacement {
  datatype GridLine = GridLine(index: int, name: string, span: nat)

  datatype Placement = Placement(start: GridLine, end: GridLine)

  /** A half-open rectangle of cells; a negative start is still open. */
  datatype Area = Area(rowStart: int, rowEnd: int, colStart: int, colEnd: int)

  datatype Item = Item(areaName: string, column: Placement, row: Placement, area: Area)

  type Cell = (int, int)

  function Max(a: int, b: int): int {
    if a < b then b else a
  }

  // ---------------------------------------------------------------- lines

  function ResolveLine(line: GridLine, named: map<string, seq<nat>>, explicitTracks: nat): int {
    if line.name != "" && line.name in named && named[line.name] != [] then named[line.name][0]
    else if line.index > 0 then line.index - 1
    else if line.index < 0 then Max(explicitTracks + line.index + 1, 0)
    else -1
  }

  function ResolveAxis(p: Placement, named: map<string, seq<nat>>, explicitTracks: nat): (int, int) {
    var start, end := ResolveLine(p.start, named, explicitTracks), ResolveLine(p.end, named, explicitTracks);
    var end := if start >= 0 && p.end.span > 0 then start + p.end.span else end;
    var start := if end >= 0 && p.start.span > 0 then Max(end - p.start.span, 0) else start;
    if start >= 0 && end < 0 then (start, start + 1) else (start, end)
  }

  function PlacementSpan(p: Placement, start: int, end: int): int {
    if end > start && start >= 0 then end - start
    else if p.start.span > 0 then p.start.span
    else if p.end.span > 0 then p.end.span
    else 1
  }

  /** Lines are numbered from 0 here.  A line without a usable name is counted from the start, or
      from the end, where its two numbers add up to the number of lines. */
  lemma LineNumbers(line: GridLine, named: map<string, seq<nat>>, tracks: nat)
    ensures var n := ResolveLine(line, named, tracks);
      if line.name != "" && line.name in named && named[line.name] != [] then
        n == named[line.name][0]
      else
        && (line.index > 0 ==> n + 1 == line.index)
        && (line.index < 0 && -line.index <= tracks + 1 ==> n - line.index == tracks + 1)
        && (line.index < 0 && -line.index > tracks + 1 ==> n == 0)
        && (line.index == 0 ==> n == -1)
  {
  }

  /** The k-th line from the end of n tracks is the line n + 2 - k from the start. */
  lemma LineFromEnd(n: nat, k: int, named: map<string, seq<nat>>)
    requires 1 <= k <= n + 1
    ensures ResolveLine(GridLine(-k, "", 0), named, n) == ResolveLine(GridLine(n + 2 - k, "", 0), named, n)
  {
  }

  /** An axis resolves to its lines, where a span next to a line takes the place of the other line;
      a start that stays open has an open end too unless only the end was given. */
  lemma AxisLines(p: Placement, named: map<string, seq<nat>>, explicitTracks: nat)
    ensures var (start, end) := ResolveAxis(p, named, explicitTracks);
      var s, e := ResolveLine(p.start, named, explicitTracks), ResolveLine(p.end, named, explicitTracks);
      && -1 <= start && -1 <= end && (start >= 0 ==> end >= 0)
      && (p.start.span == 0 ==> start == s)
      && (p.start.span == 0 && s >= 0 && p.end.span > 0 ==> end - start == p.end.span)
      && (p.start.span == 0 && s >= 0 && p.end.span == 0 ==> end == if e < 0 then start + 1 else e)
      && (p.start.span == 0 && s < 0 ==> end == e)
      && (p.start.span > 0 && (s < 0 || p.end.span == 0) && e >= 0 ==>
            end == e && start == if p.start.span <= end then end - p.start.span else 0)
      && (p.start.span > 0 && e < 0 && s < 0 ==> (start, end) == (-1, -1))
      && (p.start.span > 0 && e < 0 && s >= 0 && p.end.span == 0 ==> start == s && end == start + 1)
      && (p.start.span > 0 && s >= 0 && p.end.span > 0 ==>
            && end - s == p.end.span && start == if p.start.span <= end then end - p.start.span else 0)
  {
  }

  // ---------------------------------------------------------------- cells

  ghost function Cells(a: Area): set<Cell> {
    set r, c | a.rowStart <= r < a.rowEnd && a.colStart <= c < a.colEnd :: (r, c)
  }

  predicate Placed(a: Area) {
    a.colStart >= 0 && a.rowStart >= 0
  }

  method OccupyGridCells(occupied: set<Cell>, a: Area) returns (r: set<Cell>)
    ensures r == occupied + Cells(a)
  {
    r := occupied;
    var row := a.rowStart;
    while row < a.rowEnd
      invariant a.rowStart <= row && (row <= a.rowEnd || row == a.rowStart)
      invariant forall x, y ::
        (x, y) in r <==> (x, y) in occupied || (a.rowStart <= x < row && a.colStart <= y < a.colEnd)
    {
      var column := a.colStart;
      while column < a.colEnd
        invariant a.colStart <= column && (column <= a.colEnd || column == a.colStart)
        invariant forall x, y :: (x, y) in r <==>
          (x, y) in occupied || (a.rowStart <= x < row && a.colStart <= y < a.colEnd)
            || (x == row && a.colStart <= y < column)
      {
        r := r + {(row, column)};
        column := column + 1;
      }
      row := row + 1;
    }
    forall q: Cell
      ensures q in r <==> q in occupied + Cells(a)
    {
      var (x, y) := q;
      assert (x, y) in r <==> (x, y) in occupied || (x, y) in Cells(a);
    }
  }

  method GridCellsFree(occupied: set<Cell>, a: Area) returns (free: bool)
    ensures free <==> Cells(a) !! occupied
  {
    free := true;
    var row := a.rowStart;
    while row < a.rowEnd
      invariant a.rowStart <= row && (row <= a.rowEnd || row == a.rowStart)
      invariant forall x, y :: a.rowStart <= x < row && a.colStart <= y < a.colEnd ==> (x, y) !in occupied
    {
      var column := a.colStart;
      while column < a.colEnd
        invariant a.colStart <= column && (column <= a.colEnd || column == a.colStart)
        invariant forall y :: a.colStart <= y < column ==> (row, y) !in occupied
      {
        if (row, column) in occupied {
          assert (row, column) in Cells(a);
          return false;
        }
        column := column + 1;
      }
      row := row + 1;
    }
  }

  // ---------------------------------------------------------------- the search

  /** The grid while items are being placed. */
  datatype Grid = Grid(columnFlow: bool, columnCount: int, rowCount: int, occupied: set<Cell>)

  /** What is being placed: a negative lock is an open line. */
  datatype Piece = Piece(rowLock: int, colLock: int, rowSpan: int, colSpan: int)

  function Rows(g: Grid): int {
    Max(g.rowCount, 1)
  }

  function AutoPlacementCell(cursor: nat, g: Grid): Cell
    requires g.columnCount > 0
  {
    if g.columnFlow then (cursor % Rows(g), cursor / Rows(g)) else (cursor / g.columnCount, cursor % g.columnCount)
  }

  /** Where the piece would go at a cursor. */
  function Spot(g: Grid, p: Piece, cursor: nat): Area
    requires g.columnCount > 0
  {
    var (row, column) := AutoPlacementCell(cursor, g);
    var r := if p.rowLock >= 0 then p.rowLock else row;
    var c := if p.colLock >= 0 then p.colLock else column;
    Area(r, r + p.rowSpan, c, c + p.colSpan)
  }

  /** The piece fits there: its cells are free, and in row flow it stays within the columns. */
  ghost predicate Fits(g: Grid, p: Piece, cursor: nat)
    requires g.columnCount > 0
  {
    (g.columnFlow || Spot(g, p, cursor).colEnd <= g.columnCount) && Cells(Spot(g, p, cursor)) !! g.occupied
  }

  ghost predicate FirstFit(g: Grid, p: Piece, start: nat, cursor: nat)
    requires g.columnCount > 0
  {
    start <= cursor && Fits(g, p, cursor) && forall k: nat :: start <= k < cursor ==> !Fits(g, p, k)
  }

  /** The columns there are after a search that ended at `a`; only column flow adds columns. */
  function Widened(g: Grid, a: Area): int {
    if g.columnFlow then Max(g.columnCount, a.colEnd) else g.columnCount
  }

  /** Cursors go through the cells line by line along the flow. */
  lemma CursorOrder(g: Grid, line: nat, place: nat)
    requires g.columnCount > 0
    ensures !g.columnFlow && place < g.columnCount ==>
      AutoPlacementCell(line * g.columnCount + place, g) == (line, place)
    ensures g.columnFlow && g.rowCount > 0 && place < g.rowCount ==>
      AutoPlacementCell(line * g.rowCount + place, g) == (place, line)
    ensures g.columnFlow && g.rowCount <= 0 ==> AutoPlacementCell(line, g) == (0, line)
  {
    if !g.columnFlow && place < g.columnCount {
      DivideProduct(line, g.columnCount, place);
    } else if g.columnFlow && g.rowCount > 0 && place < g.rowCount {
      DivideProduct(line, g.rowCount, place);
    }
  }

  lemma DivisionGrows(a: nat, b: nat, d: int)
    requires d > 0 && a <= b
    ensures a / d <= b / d
  {
    var q, r := a / d, b / d;
    assert a == q * d + a % d && b == r * d + b % d;
    if r < q { Product(r + 1, q, d); }
  }

  lemma Product(a: int, b: int, d: int)
    requires d > 0 && a <= b
    ensures a * d <= b * d
  {
  }

  /** Columns are visited in order. */
  lemma SpotsAdvance(g: Grid, p: Piece, a: nat, b: nat)
    requires g.columnCount > 0 && g.columnFlow && a <= b
    ensures Spot(g, p, a).colEnd <= Spot(g, p, b).colEnd
  {
    DivisionGrows(a, b, Rows(g));
  }

  /** The search loop, which ends only because some later cursor fits. */
  method Search(g: Grid, p: Piece, start: nat) returns (a: Area, cursor: nat, columnCount: int)
    requires g.columnCount > 0 && exists k: nat :: start <= k && Fits(g, p, k)
    ensures cursor > start && FirstFit(g, p, start, cursor - 1) && a == Spot(g, p, cursor - 1)
    ensures columnCount == Widened(g, a)
  {
    ghost var goal: nat :| start <= goal && Fits(g, p, goal);
    cursor, columnCount := start, g.columnCount;
    while true
      invariant start <= cursor <= goal && forall k: nat :: start <= k < cursor ==> !Fits(g, p, k)
      invariant columnCount == if cursor == start then g.columnCount else Widened(g, Spot(g, p, cursor - 1))
      decreases goal - cursor
    {
      a := Spot(g, p, cursor);
      if cursor > start && g.columnFlow { SpotsAdvance(g, p, cursor - 1, cursor); }
      if g.columnFlow && a.colEnd > columnCount {
        columnCount := a.colEnd;
      }
      var free := GridCellsFree(g.occupied, a);
      if a.colEnd <= columnCount && free {
        cursor := cursor + 1;
        return;
      }
      cursor := cursor + 1;
    }
  }

  // ---------------------------------------------------------------- when the search ends

  ghost function Bound(cells: set<Cell>): (b: nat)
    ensures forall q | q in cells :: q.0 < b && q.1 < b
  {
    if cells == {} then 0 else
      var q :| q in cells;
      var rest := Bound(cells - {q});
      assert forall x | x in cells :: x == q || x in cells - {q};
      Max(rest, Max(q.0 + 1, q.1 + 1))
  }

  lemma DivideProduct(a: nat, d: nat, r: nat)
    requires r < d
    ensures (a * d + r) / d == a && (a * d + r) % d == r && 0 <= a * d + r && a <= a * d + r
  {
    var n := a * d + r;
    assert n == (n / d) * d + n % d;
    if n / d < a { Product(n / d + 1, a, d); }
    if n / d > a { Product(a + 1, n / d, d); }
    if a > 0 { Product(1, d, a); }
  }

  /** Whether the search for a piece ends: in row flow a locked column has to leave room for the
      span, and a locked row has to have a free place somewhere; in column flow a locked column
      has to have a free place among the rows there are. */
  ghost predicate Ends(g: Grid, p: Piece) {
    if !g.columnFlow then
      if p.colLock >= 0 && p.rowLock >= 0 then
        p.colLock + p.colSpan <= g.columnCount && FreeAt(g, p, p.rowLock, p.colLock)
      else if p.colLock >= 0 then p.colLock + p.colSpan <= g.columnCount
      else if p.rowLock >= 0 then
        exists c :: 0 <= c < g.columnCount && c + p.colSpan <= g.columnCount && FreeAt(g, p, p.rowLock, c)
      else p.colSpan <= g.columnCount
    else
      if p.colLock >= 0 && p.rowLock >= 0 then FreeAt(g, p, p.rowLock, p.colLock)
      else if p.colLock >= 0 then exists r :: 0 <= r < Rows(g) && FreeAt(g, p, r, p.colLock)
      else true
  }

  ghost predicate FreeAt(g: Grid, p: Piece, r: int, c: int) {
    Cells(Area(r, r + p.rowSpan, c, c + p.colSpan)) !! g.occupied
  }

  lemma BeyondIsFree(g: Grid, a: Area)
    requires a.rowStart >= Bound(g.occupied) || a.colStart >= Bound(g.occupied)
    ensures Cells(a) !! g.occupied
  {
  }

  /** In row flow every place is visited again and again, one row further each time. */
  lemma RowCursor(g: Grid, p: Piece, start: nat, row: nat, column: nat) returns (k: nat)
    requires !g.columnFlow && column < g.columnCount
    ensures p.rowLock < 0 ==> row <= Spot(g, p, k).rowStart
    ensures start <= k && Spot(g, p, k).colStart == (if p.colLock >= 0 then p.colLock else column)
    ensures p.rowLock >= 0 ==> Spot(g, p, k).rowStart == p.rowLock
  {
    var a := if row < start then start else row;
    k := a * g.columnCount + column;
    DivideProduct(a, g.columnCount, column);
  }

  lemma ColumnCursor(g: Grid, p: Piece, start: nat, row: nat, column: nat) returns (k: nat)
    requires g.columnFlow && g.columnCount > 0 && row < Rows(g)
    ensures p.colLock < 0 ==> column <= Spot(g, p, k).colStart
    ensures start <= k && Spot(g, p, k).rowStart == (if p.rowLock >= 0 then p.rowLock else row)
    ensures p.colLock >= 0 ==> Spot(g, p, k).colStart == p.colLock
  {
    var a := if column < start then start else column;
    k := a * Rows(g) + row;
    DivideProduct(a, Rows(g), row);
  }

  lemma EndsInRowFlow(g: Grid, p: Piece, start: nat) returns (k: nat)
    requires g.columnCount > 0 && !g.columnFlow && Ends(g, p)
    ensures start <= k && Fits(g, p, k)
  {
    if p.rowLock < 0 {
      k := RowCursor(g, p, start, Bound(g.occupied), 0);
      BeyondIsFree(g, Spot(g, p, k));
    } else if p.colLock < 0 {
      var c :| 0 <= c < g.columnCount && c + p.colSpan <= g.columnCount && FreeAt(g, p, p.rowLock, c);
      k := RowCursor(g, p, start, 0, c);
    } else {
      k := RowCursor(g, p, start, 0, 0);
    }
  }

  lemma EndsInColumnFlow(g: Grid, p: Piece, start: nat) returns (k: nat)
    requires g.columnCount > 0 && g.columnFlow && Ends(g, p)
    ensures start <= k && Fits(g, p, k)
  {
    if p.colLock < 0 {
      k := ColumnCursor(g, p, start, 0, Bound(g.occupied));
      BeyondIsFree(g, Spot(g, p, k));
    } else if p.rowLock < 0 {
      var r :| 0 <= r < Rows(g) && FreeAt(g, p, r, p.colLock);
      k := ColumnCursor(g, p, start, r, 0);
    } else {
      k := ColumnCursor(g, p, start, 0, 0);
    }
  }

  /** From any cursor on, some cursor fits exactly when the condition above holds; otherwise the
      search goes on for ever. */
  lemma SearchEnds(g: Grid, p: Piece, start: nat)
    requires g.columnCount > 0 && p.colSpan > 0 && p.rowSpan > 0
    ensures (exists k: nat :: start <= k && Fits(g, p, k)) <==> Ends(g, p)
  {
    if Ends(g, p) {
      if g.columnFlow {
        var k := EndsInColumnFlow(g, p, start);
      } else {
        var k := EndsInRowFlow(g, p, start);
      }
    }
    if k: nat :| start <= k && Fits(g, p, k) {
      FitEnds(g, p, k);
    }
  }

  lemma FitEnds(g: Grid, p: Piece, k: nat)
    requires g.columnCount > 0 && p.colSpan > 0 && p.rowSpan > 0 && Fits(g, p, k)
    ensures Ends(g, p)
  {
    var a := Spot(g, p, k);
    assert FreeAt(g, p, a.rowStart, a.colStart);
  }

  // ---------------------------------------------------------------- explicit placement

  datatype Lines = Lines(areas: map<string, Area>, columns: map<string, seq<nat>>, rows: map<string, seq<nat>>)

  datatype Counts = Counts(columns: nat, rows: nat)

  /** The area of an item as far as its style gives it; negative lines count back from the tracks
      there are by then. */
  function ResolvedArea(item: Item, lines: Lines, counts: Counts): Area {
    if item.areaName in lines.areas then lines.areas[item.areaName] else
      var (colStart, colEnd) := ResolveAxis(item.column, lines.columns, counts.columns);
      var (rowStart, rowEnd) := ResolveAxis(item.row, lines.rows, Max(counts.rows, 1));
      Area(rowStart, rowEnd, colStart, colEnd)
  }

  function Extended(counts: Counts, a: Area): Counts {
    Counts(Max(counts.columns, a.colEnd), Max(counts.rows, a.rowEnd))
  }

  /** The items with their resolved areas, and the tracks needed for them. */
  function Resolved(items: seq<Item>, lines: Lines, counts: Counts): (r: (seq<Item>, Counts))
    ensures |r.0| == |items| && counts.columns <= r.1.columns && counts.rows <= r.1.rows
  {
    if items == [] then ([], counts) else
      var (done, c) := Resolved(items[..|items| - 1], lines, counts);
      var item := items[|items| - 1];
      var a := ResolvedArea(item, lines, c);
      (done + [item.(area := a)], Extended(c, a))
  }

  ghost predicate Within(a: Area, columns: int, rows: int) {
    a.colEnd <= columns && a.rowEnd <= rows
  }

  /** Every resolved area ends within the tracks that result. */
  lemma {:induction false} ResolvedWithin(items: seq<Item>, lines: Lines, counts: Counts, i: nat)
    requires i < |items|
    ensures var (done, c) := Resolved(items, lines, counts);
            && Within(done[i].area, c.columns, c.rows) && done[i] == items[i].(area := done[i].area)
    decreases |items|
  {
    if i < |items| - 1 { ResolvedWithin(items[..|items| - 1], lines, counts, i); }
  }

  /** A named area is taken as it is; otherwise each axis resolves among its own lines and the tracks
      that the items before it have left, of which there is at least one row. */
  lemma {:induction false} ResolvedLines(items: seq<Item>, lines: Lines, counts: Counts, i: nat)
    requires i < |items|
    ensures var a, c := Resolved(items, lines, counts).0[i].area, Resolved(items[..i], lines, counts).1;
      if items[i].areaName in lines.areas then
        a == lines.areas[items[i].areaName]
      else
        && (a.colStart, a.colEnd) == ResolveAxis(items[i].column, lines.columns, c.columns)
        && (a.rowStart, a.rowEnd) == ResolveAxis(items[i].row, lines.rows, if c.rows == 0 then 1 else c.rows)
    decreases |items|
  {
    if i < |items| - 1 {
      ResolvedLines(items[..|items| - 1], lines, counts, i);
      assert items[..|items| - 1][..i] == items[..i];
    }
  }

  /** The tracks needed: those there were, or as many as some area reaches. */
  lemma {:induction false} ResolvedNeeds(items: seq<Item>, lines: Lines, counts: Counts)
    ensures var (done, c) := Resolved(items, lines, counts);
      && (c.columns == counts.columns || exists i :: 0 <= i < |items| && done[i].area.colEnd == c.columns)
      && (c.rows == counts.rows || exists i :: 0 <= i < |items| && done[i].area.rowEnd == c.rows)
    decreases |items|
  {
    if items != [] {
      var n := |items| - 1;
      ResolvedNeeds(items[..n], lines, counts);
      var (done, c) := Resolved(items, lines, counts);
      var before := Resolved(items[..n], lines, counts).0;
      assert forall i :: 0 <= i < n ==> done[i] == before[i];
      assert done[n].area.colEnd <= c.columns && done[n].area.rowEnd <= c.rows;
    }
  }

  /** The cells of the placed items. */
  ghost function TakenBy(items: seq<Item>): set<Cell> {
    if items == [] then {} else
      var last := items[|items| - 1].area;
      TakenBy(items[..|items| - 1]) + if Placed(last) then Cells(last) else {}
  }

  lemma {:induction false} TakenIncludes(items: seq<Item>, i: nat)
    requires i < |items| && Placed(items[i].area)
    ensures Cells(items[i].area) <= TakenBy(items)
    decreases |items|
  {
    if i < |items| - 1 { TakenIncludes(items[..|items| - 1], i); }
  }

  lemma TakenNext(items: seq<Item>, i: nat)
    requires i < |items|
    ensures TakenBy(items[..i + 1]) == TakenBy(items[..i]) + if Placed(items[i].area) then Cells(items[i].area) else {}
  {
    assert items[..i + 1][..i] == items[..i];
  }

  method PlaceExplicit(items: array<Item>, lines: Lines, counts: Counts) returns (total: Counts, occupied: set<Cell>)
    modifies items
    ensures (items[..], total) == Resolved(old(items[..]), lines, counts)
    ensures occupied == TakenBy(items[..])
  {
    hide ResolvedArea, ResolveAxis, ResolveLine, PlacementSpan;
    total, occupied := counts, {};
    for i := 0 to items.Length
      invariant (items[..i], total) == Resolved(old(items[..i]), lines, counts)
      invariant forall k :: i <= k < items.Length ==> items[k] == old(items[k])
      invariant occupied == TakenBy(items[..i])
    {
      assert old(items[..i + 1])[..i] == old(items[..i]);
      ghost var before := items[..i];
      var a := ResolvedArea(items[i], lines, total);
      items[i] := items[i].(area := a);
      total := Extended(total, a);
      if Placed(a) {
        occupied := OccupyGridCells(occupied, a);
      }
      assert items[..i + 1] == before + [items[i]];
      TakenNext(items[..], i);
      assert items[..][..i] == before && items[..][..i + 1] == items[..i + 1];
    }
    assert items[..items.Length] == items[..] && old(items[..items.Length]) == old(items[..]);
  }

  // ---------------------------------------------------------------- automatic placement

  function PieceOf(item: Item): Piece {
    Piece(item.area.rowStart, item.area.colStart,
          PlacementSpan(item.row, item.area.rowStart, item.area.rowEnd),
          PlacementSpan(item.column, item.area.colStart, item.area.colEnd))
  }

  /** How many tracks an axis asks for: those between its lines, or else its span, or else one. */
  ghost predicate Asks(p: Placement, start: int, end: int, tracks: int) {
    && tracks > 0
    && (0 <= start < end ==> start + tracks == end)
    && (!(0 <= start < end) ==>
          && (p.start.span > 0 ==> tracks == p.start.span)
          && (p.start.span == 0 && p.end.span > 0 ==> tracks == p.end.span)
          && (p.start.span == p.end.span == 0 ==> tracks == 1))
  }

  lemma PieceSpans(item: Item)
    ensures Asks(item.row, item.area.rowStart, item.area.rowEnd, PieceOf(item).rowSpan)
    ensures Asks(item.column, item.area.colStart, item.area.colEnd, PieceOf(item).colSpan)
  {
  }

  /** The grid and the cursor between two items. */
  datatype Stage = Stage(g: Grid, cursor: nat)

  /** The grid in which the piece is searched for: it has columns for the whole span. */
  function Wide(g: Grid, p: Piece): Grid {
    g.(columnCount := Max(g.columnCount, p.colSpan))
  }

  /** The grid once a search in `g` has ended at `a`. */
  ghost function Grown(g: Grid, a: Area): Grid {
    Grid(g.columnFlow, Widened(g, a), Max(g.rowCount, a.rowEnd), g.occupied + Cells(a))
  }

  /** Dense packing starts every search afresh, sparse packing where the last one ended. */
  function Start(s: Stage, dense: bool): nat {
    if dense then 0 else s.cursor
  }

  /** What automatic placement makes of one item and of the grid. */
  ghost predicate Step(s: Stage, dense: bool, was: Item, now: Item, t: Stage)
    requires s.g.columnCount > 0
  {
    if Placed(was.area) then
      now == was && t == s
    else
      var p, h := PieceOf(was), Wide(s.g, PieceOf(was));
      && t.cursor > 0 && FirstFit(h, p, Start(s, dense), t.cursor - 1)
      && now == was.(area := Spot(h, p, t.cursor - 1)) && t.g == Grown(h, now.area)
  }

  /** The items one after the other; everything is determined by the first grid. */
  ghost predicate Packs(was: seq<Item>, now: seq<Item>, first: Grid, dense: bool, trace: seq<Stage>) {
    && |was| == |now| && |trace| == |was| + 1 && trace[0] == Stage(first, 0)
    && (forall i :: 0 <= i < |trace| ==> trace[i].g.columnCount > 0)
    && (forall i :: 0 <= i < |was| ==> Step(trace[i], dense, was[i], now[i], trace[i + 1]))
  }

  /** Every search ends: each item still to be placed has a free slot in the grid it will meet. */
  ghost predicate Packable(rest: seq<Item>, s: Stage, dense: bool)
    requires s.g.columnCount > 0
    decreases |rest|
  {
    rest == [] ||
    if Placed(rest[0].area) then
      Packable(rest[1..], s, dense)
    else
      var p, h := PieceOf(rest[0]), Wide(s.g, PieceOf(rest[0]));
      && Ends(h, p)
      && forall k: nat :: FirstFit(h, p, Start(s, dense), k) ==>
           Packable(rest[1..], Stage(Grown(h, Spot(h, p, k)), k + 1), dense)
  }

  const OPEN := Placement(GridLine(0, "", 0), GridLine(0, "", 0))
  const FIRST := Placement(GridLine(1, "", 0), GridLine(0, "", 0))

  /** An item in the first row and column, and one locked to the first row. */
  const CORNER := Item("", FIRST, FIRST, Area(-1, -1, -1, -1))
  const LOCKED := Item("", OPEN, FIRST, Area(-1, -1, -1, -1))

  lemma ResolvedNext(items: seq<Item>, item: Item, lines: Lines, counts: Counts)
    ensures var (done, c) := Resolved(items, lines, counts);
      var a := ResolvedArea(item, lines, c);
      Resolved(items + [item], lines, counts) == (done + [item.(area := a)], Extended(c, a))
  {
    assert (items + [item])[..|items|] == items;
  }

  lemma FullRowResolved(rows: nat)
    ensures Resolved([CORNER, LOCKED], Lines(map[], map[], map[]), Counts(1, rows))
         == ([CORNER.(area := Area(0, 1, 0, 1)), LOCKED.(area := Area(0, 1, -1, -1))], Counts(1, Max(rows, 1)))
  {
    var lines := Lines(map[], map[], map[]);
    assert ResolvedArea(CORNER, lines, Counts(1, rows)) == Area(0, 1, 0, 1);
    ResolvedNext([], CORNER, lines, Counts(1, rows));
    var one := [CORNER.(area := Area(0, 1, 0, 1))];
    assert [] + [CORNER] == [CORNER] && [] + one == one;
    assert Resolved([CORNER], lines, Counts(1, rows)) == (one, Counts(1, Max(rows, 1)));
    assert ResolvedArea(LOCKED, lines, Counts(1, Max(rows, 1))) == Area(0, 1, -1, -1);
    ResolvedNext([CORNER], LOCKED, lines, Counts(1, rows));
    assert [CORNER] + [LOCKED] == [CORNER, LOCKED];
    var last := LOCKED.(area := Area(0, 1, -1, -1));
    assert one + [last] == [one[0], last];
  }

  /** One column, row flow: an item in the first row, and one locked to that row.  No cursor fits
      the second item, so the search for it never ends. */
  lemma FullRowNeverEnds(rows: nat, dense: bool)
    ensures var resolved := Resolved([CORNER, LOCKED], Lines(map[], map[], map[]), Counts(1, rows));
      var first := FirstGrid(resolved, false);
      && Placed(resolved.0[0].area) && !Placed(resolved.0[1].area) && first.columnCount == 1
      && !Packable(resolved.0, Stage(first, 0), dense)
      && forall k: nat :: !Fits(first, PieceOf(resolved.0[1]), k)
  {
    FullRowResolved(rows);
    var resolved := Resolved([CORNER, LOCKED], Lines(map[], map[], map[]), Counts(1, rows));
    var items, first := resolved.0, FirstGrid(resolved, false);
    TakenIncludes(items, 0);
    assert (0, 0) in Cells(Area(0, 1, 0, 1));
    var p := PieceOf(items[1]);
    assert p == Piece(0, -1, 1, 1) && Wide(first, p) == first;
    assert !FreeAt(first, p, 0, 0);
    SearchEnds(first, p, 0);
    assert items[1..][0] == items[1];
  }

  /** The item is locked across the flow at most, and then has an area of its own along the
      locked axis. */
  predicate CrossLocked(a: Area, columnFlow: bool, columnCount: int) {
    Placed(a) ||
    if columnFlow then a.colStart < 0 else a.rowStart < 0 && (a.colStart >= 0 ==> a.colStart < a.colEnd <= columnCount)
  }

  /** Items locked across the flow at most can always be placed. */
  lemma {:induction false} CrossLockedPackable(rest: seq<Item>, s: Stage, dense: bool)
    requires s.g.columnCount > 0
    requires forall i :: 0 <= i < |rest| ==> CrossLocked(rest[i].area, s.g.columnFlow, s.g.columnCount)
    ensures Packable(rest, s, dense)
    decreases |rest|
  {
    if rest != [] {
      if Placed(rest[0].area) {
        CrossLockedPackable(rest[1..], s, dense);
      } else {
        var p, h := PieceOf(rest[0]), Wide(s.g, PieceOf(rest[0]));
        assert Ends(h, p);
        forall k: nat | FirstFit(h, p, Start(s, dense), k)
          ensures Packable(rest[1..], Stage(Grown(h, Spot(h, p, k)), k + 1), dense)
        { CrossLockedPackable(rest[1..], Stage(Grown(h, Spot(h, p, k)), k + 1), dense); }
      }
    }
  }

  lemma SpotSigns(g: Grid, p: Piece, k: nat)
    requires g.columnCount > 0
    ensures Placed(Spot(g, p, k))
  {
  }

  /** Placing one item adds exactly its cells, which were free, and never takes tracks away. */
  lemma StepGrows(s: Stage, dense: bool, was: Item, now: Item, t: Stage)
    requires s.g.columnCount > 0 && Step(s, dense, was, now, t)
    ensures Placed(now.area) && s.g.columnCount <= t.g.columnCount && s.g.rowCount <= t.g.rowCount
    ensures t.g.columnFlow == s.g.columnFlow
    ensures t.g.occupied == if Placed(was.area) then s.g.occupied else s.g.occupied + Cells(now.area)
    ensures !Placed(was.area) ==>
      Cells(now.area) !! s.g.occupied && Within(now.area, t.g.columnCount, t.g.rowCount)
  {
    if !Placed(was.area) { SpotSigns(Wide(s.g, PieceOf(was)), PieceOf(was), t.cursor - 1); }
  }

  lemma {:induction false} StagesGrow(was: seq<Item>, now: seq<Item>, first: Grid, dense: bool, trace: seq<Stage>,
                                      i: nat, j: nat)
    requires Packs(was, now, first, dense, trace) && i <= j < |trace|
    ensures trace[i].g.occupied <= trace[j].g.occupied
    ensures trace[i].g.columnCount <= trace[j].g.columnCount && trace[i].g.rowCount <= trace[j].g.rowCount
    decreases j - i
  {
    if i < j {
      StepGrows(trace[j - 1], dense, was[j - 1], now[j - 1], trace[j]);
      StagesGrow(was, now, first, dense, trace, i, j - 1);
    }
  }

  /** Every search meets exactly the explicitly placed items and the items before its own. */
  lemma {:induction false} StageOccupied(was: seq<Item>, now: seq<Item>, first: Grid, dense: bool, trace: seq<Stage>,
                                         i: nat)
    requires Packs(was, now, first, dense, trace) && first.occupied == TakenBy(was) && i <= |was|
    ensures trace[i].g.occupied == TakenBy(was) + TakenBy(now[..i]) && trace[i].g.columnFlow == first.columnFlow
    decreases i
  {
    if i > 0 {
      var k := i - 1;
      StageOccupied(was, now, first, dense, trace, k);
      StepGrows(trace[k], dense, was[k], now[k], trace[i]);
      TakenNext(now, k);
      if Placed(was[k].area) { TakenIncludes(was, k); }
    }
  }

  /** Dense packing: no cursor before the one of an item fits, in a grid with the explicitly placed
      items and the items before it. */
  lemma DenseFirst(was: seq<Item>, now: seq<Item>, first: Grid, trace: seq<Stage>, i: nat) returns (k: nat)
    requires Packs(was, now, first, true, trace) && first.occupied == TakenBy(was)
    requires i < |was| && !Placed(was[i].area)
    ensures var p, h := PieceOf(was[i]), Wide(trace[i].g, PieceOf(was[i]));
            && h.occupied == TakenBy(was) + TakenBy(now[..i]) && h.columnFlow == first.columnFlow
            && now[i].area == Spot(h, p, k) && Fits(h, p, k) && forall j: nat :: j < k ==> !Fits(h, p, j)
  {
    StageOccupied(was, now, first, true, trace, i);
    assert Step(trace[i], true, was[i], now[i], trace[i + 1]);
    k := trace[i + 1].cursor - 1;
  }

  /** Sparse packing: the cursor of an item is behind that of every item placed before it, and none
      in between fits. */
  lemma SparseFirst(was: seq<Item>, now: seq<Item>, first: Grid, trace: seq<Stage>, m: nat, i: nat)
    returns (j: nat, k: nat)
    requires Packs(was, now, first, false, trace) && first.occupied == TakenBy(was)
    requires m < i < |was| && !Placed(was[m].area) && !Placed(was[i].area)
    requires forall x :: m < x < i ==> Placed(was[x].area)
    ensures j < k
    ensures now[m].area == Spot(Wide(trace[m].g, PieceOf(was[m])), PieceOf(was[m]), j)
    ensures var p, h := PieceOf(was[i]), Wide(trace[i].g, PieceOf(was[i]));
            && h.occupied == TakenBy(was) + TakenBy(now[..i]) && h.columnFlow == first.columnFlow
            && now[i].area == Spot(h, p, k) && Fits(h, p, k) && forall x: nat :: j < x < k ==> !Fits(h, p, x)
  {
    StageOccupied(was, now, first, false, trace, i);
    assert Step(trace[m], false, was[m], now[m], trace[m + 1]);
    assert Step(trace[i], false, was[i], now[i], trace[i + 1]);
    StagesKept(was, now, first, false, trace, m + 1, i);
    j, k := trace[m + 1].cursor - 1, trace[i + 1].cursor - 1;
  }

  /** Nothing happens where every item has its place. */
  lemma {:induction false} StagesKept(was: seq<Item>, now: seq<Item>, first: Grid, dense: bool, trace: seq<Stage>,
                                      i: nat, j: nat)
    requires Packs(was, now, first, dense, trace) && i <= j < |trace|
    requires forall x :: i <= x < j ==> Placed(was[x].area)
    ensures trace[j] == trace[i]
    decreases j - i
  {
    if i < j {
      assert Step(trace[j - 1], dense, was[j - 1], now[j - 1], trace[j]);
      StagesKept(was, now, first, dense, trace, i, j - 1);
    }
  }

  /** An item keeps the lines it is locked to and gets the tracks it asks for on either axis. */
  lemma PackedKeeps(was: seq<Item>, now: seq<Item>, first: Grid, dense: bool, trace: seq<Stage>, k: nat)
    requires Packs(was, now, first, dense, trace) && k < |was|
    ensures var a, b := was[k].area, now[k].area;
      && now[k] == was[k].(area := b) && (Placed(a) ==> b == a)
      && (a.rowStart >= 0 ==> b.rowStart == a.rowStart) && (a.colStart >= 0 ==> b.colStart == a.colStart)
      && (!Placed(a) ==>
            && Asks(was[k].row, a.rowStart, a.rowEnd, b.rowEnd - b.rowStart)
            && Asks(was[k].column, a.colStart, a.colEnd, b.colEnd - b.colStart))
  {
    assert Step(trace[k], dense, was[k], now[k], trace[k + 1]);
    PieceSpans(was[k]);
  }

  /** An item placed automatically shares no cell with any other item. */
  lemma PackedApart(was: seq<Item>, now: seq<Item>, first: Grid, dense: bool, trace: seq<Stage>, k: nat, m: nat)
    requires Packs(was, now, first, dense, trace) && first.occupied == TakenBy(was)
    requires k < |was| && m < |was| && k != m && !Placed(was[k].area)
    ensures Cells(now[k].area) !! Cells(now[m].area)
  {
    StepGrows(trace[k], dense, was[k], now[k], trace[k + 1]);
    StepGrows(trace[m], dense, was[m], now[m], trace[m + 1]);
    if Placed(was[m].area) {
      TakenIncludes(was, m);
      StagesGrow(was, now, first, dense, trace, 0, k);
    } else if m < k {
      StagesGrow(was, now, first, dense, trace, m + 1, k);
    } else {
      StagesGrow(was, now, first, dense, trace, k + 1, m);
    }
  }

  /** At the end every item has a place within the tracks, on occupied cells. */
  lemma PackedPlaced(was: seq<Item>, now: seq<Item>, first: Grid, dense: bool, trace: seq<Stage>, k: nat)
    requires Packs(was, now, first, dense, trace) && first.occupied == TakenBy(was) && k < |was|
    requires Placed(was[k].area) ==> Within(was[k].area, first.columnCount, first.rowCount)
    ensures var g := trace[|was|].g;
            && now[k].area.rowStart >= 0 && now[k].area.colStart >= 0
            && Within(now[k].area, g.columnCount, g.rowCount) && Cells(now[k].area) <= g.occupied
  {
    StepGrows(trace[k], dense, was[k], now[k], trace[k + 1]);
    StagesGrow(was, now, first, dense, trace, k + 1, |was|);
    if Placed(was[k].area) {
      TakenIncludes(was, k);
      StagesGrow(was, now, first, dense, trace, 0, |was|);
    }
  }

  /** Places one item whose start lines are not both given. */
  method PlaceOne(g: Grid, item: Item, start: nat) returns (placed: Item, after: Grid, next: nat)
    requires g.columnCount > 0 && !Placed(item.area) && Ends(Wide(g, PieceOf(item)), PieceOf(item))
    ensures next > 0 && FirstFit(Wide(g, PieceOf(item)), PieceOf(item), start, next - 1)
    ensures placed == item.(area := Spot(Wide(g, PieceOf(item)), PieceOf(item), next - 1))
    ensures after == Grown(Wide(g, PieceOf(item)), placed.area)
  {
    var piece := PieceOf(item);
    PieceSpans(item);
    var wide := Wide(g, piece);
    SearchEnds(wide, piece, start);
    var a, columns;
    a, next, columns := Search(wide, piece, start);
    var occupied := OccupyGridCells(g.occupied, a);
    placed := item.(area := a);
    after := Grid(g.columnFlow, columns, Max(g.rowCount, a.rowEnd), occupied);
  }

  lemma PacksNext(was: seq<Item>, now: seq<Item>, first: Grid, dense: bool, trace: seq<Stage>, item: Item,
                  placed: Item, t: Stage)
    requires Packs(was, now, first, dense, trace) && t.g.columnCount > 0
    requires Step(trace[|was|], dense, item, placed, t)
    ensures Packs(was + [item], now + [placed], first, dense, trace + [t])
  {
  }

  /** Places, in order, every item whose start lines are not both given. */
  method AutoPlace(items: array<Item>, first: Grid, dense: bool) returns (g: Grid, ghost trace: seq<Stage>)
    requires first.columnCount > 0 && Packable(items[..], Stage(first, 0), dense)
    modifies items
    ensures Packs(old(items[..]), items[..], first, dense, trace) && g == trace[items.Length].g
  {
    hide Step;
    g, trace := first, [Stage(first, 0)];
    var cursor := 0;
    ghost var was := items[..];
    assert was[0..] == was;
    for i := 0 to items.Length
      invariant Packs(was[..i], items[..i], first, dense, trace) && trace[i] == Stage(g, cursor)
      invariant items[i..] == was[i..] && Packable(was[i..], Stage(g, cursor), dense)
    {
      ghost var before := items[..i];
      assert was[i..][0] == was[i] == items[i..][0] && was[i..][1..] == was[i + 1..] == items[i..][1..];
      if !Placed(items[i].area) {
        var placed;
        placed, g, cursor := PlaceOne(g, items[i], if dense then 0 else cursor);
        items[i] := placed;
      }
      PacksNext(was[..i], before, first, dense, trace, was[i], items[i], Stage(g, cursor));
      trace := trace + [Stage(g, cursor)];
      assert was[..i + 1] == was[..i] + [was[i]] && items[..i + 1] == before + [items[i]];
    }
    assert was[..items.Length] == was && items[..items.Length] == items[..];
  }

  ghost function FirstGrid(resolved: (seq<Item>, Counts), columnFlow: bool): Grid {
    Grid(columnFlow, resolved.1.columns, resolved.1.rows, TakenBy(resolved.0))
  }

  /** Both phases.  The searches end exactly because every item has a free slot when its turn comes. */
  method PlaceItems(items: array<Item>, lines: Lines, counts: Counts, columnFlow: bool, dense: bool)
    returns (g: Grid, ghost trace: seq<Stage>)
    requires counts.columns > 0
    requires var resolved := Resolved(items[..], lines, counts);
             Packable(resolved.0, Stage(FirstGrid(resolved, columnFlow), 0), dense)
    modifies items
    ensures var resolved := Resolved(old(items[..]), lines, counts);
            && Packs(resolved.0, items[..], FirstGrid(resolved, columnFlow), dense, trace)
            && g == trace[items.Length].g
            && forall k, m ::
                 0 <= k < items.Length && 0 <= m < items.Length && k != m && !Placed(resolved.0[k].area) ==>
                 Cells(items[k].area) !! Cells(items[m].area)
    ensures forall i :: 0 <= i < items.Length ==>
      && items[i].area.rowStart >= 0 && items[i].area.colStart >= 0
      && Within(items[i].area, g.columnCount, g.rowCount) && Cells(items[i].area) <= g.occupied
  {
    ghost var before := items[..];
    var total, occupied := PlaceExplicit(items, lines, counts);
    ghost var was := items[..];
    ghost var first := Grid(columnFlow, total.columns, total.rows, occupied);
    g, trace := AutoPlace(items, Grid(columnFlow, total.columns, total.rows, occupied), dense);
    forall i | 0 <= i < items.Length
      ensures items[i].area.rowStart >= 0 && items[i].area.colStart >= 0
      ensures Within(items[i].area, g.columnCount, g.rowCount) && Cells(items[i].area) <= g.occupied
    {
      ResolvedWithin(before, lines, counts, i);
      PackedPlaced(was, items[..], first, dense, trace, i);
    }
    forall k, m | 0 <= k < items.Length && 0 <= m < items.Length && k != m && !Placed(was[k].area)
      ensures Cells(items[k].area) !! Cells(items[m].area)
    { PackedApart(was, items[..], first, dense, trace, k, m); }
  }
}
