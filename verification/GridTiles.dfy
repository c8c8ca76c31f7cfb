/**
 The grid detector: dark bands across a frame are gaps between tiles, the middles of the gaps are
 edges, and the cells between the edges that are large enough are tiles.
 */
module GridTiles {

  const DARK_THRESHOLD: real := 55.0
  const GAP_MIN_PX := 2
  const TILE_MIN_PX := 50

  datatype Gap = Gap(start: nat, end: nat)
  datatype Rect = Rect(x: int, y: int, w: int, h: int)
  datatype Tile = Tile(id: nat, bbox: Rect)

  function Dark(brightness: nat -> real, length: nat): (dark: seq<bool>)
    ensures |dark| == length && forall i :: 0 <= i < length ==> dark[i] == (brightness(i) < DARK_THRESHOLD)
  {
    seq(length, i requires 0 <= i < length => brightness(i) < DARK_THRESHOLD)
  }

  // ---------- gaps ----------

  /** The first position from `i` on that is not dark. */
  function RunEnd(dark: seq<bool>, i: nat): (end: nat)
    requires i <= |dark|
    ensures i <= end <= |dark|
    ensures forall k :: i <= k < end ==> dark[k]
    ensures end < |dark| ==> !dark[end]
    decreases |dark| - i
  {
    if i < |dark| && dark[i] then RunEnd(dark, i + 1) else i
  }

  function GapsFrom(dark: seq<bool>, i: nat): seq<Gap>
    requires i <= |dark|
    decreases |dark| - i
  {
    if i == |dark| then []
    else if !dark[i] then GapsFrom(dark, i + 1)
    else
      var end := RunEnd(dark, i);
      if end - i >= GAP_MIN_PX then [Gap(i, end)] + GapsFrom(dark, end) else GapsFrom(dark, end)
  }

  method FindGaps(brightness: nat -> real, length: nat) returns (gaps: seq<Gap>)
    ensures gaps == GapsFrom(Dark(brightness, length), 0)
  {
    ghost var all := Dark(brightness, length);
    gaps := [];
    var inGap, gapStart := false, 0;
    for i := 0 to length
      invariant inGap ==> gapStart < i && all[gapStart] && RunEnd(all, gapStart) == RunEnd(all, i)
      invariant gaps + GapsFrom(all, if inGap then gapStart else i) == GapsFrom(all, 0)
    {
      var dark := brightness(i) < DARK_THRESHOLD;
      if dark && !inGap {
        gapStart := i;
        inGap := true;
      } else if !dark && inGap {
        GapDone(gaps, all, gapStart, i);
        if i - gapStart >= GAP_MIN_PX {
          gaps := gaps + [Gap(gapStart, i)];
        }
        inGap := false;
      }
    }
    if inGap {
      GapDone(gaps, all, gapStart, length);
    }
    if inGap && length - gapStart >= GAP_MIN_PX {
      gaps := gaps + [Gap(gapStart, length)];
    }
    assert gaps + [] == gaps;
  }

  lemma GapDone(gaps: seq<Gap>, dark: seq<bool>, start: nat, end: nat)
    requires start < end <= |dark| && dark[start] && RunEnd(dark, start) == end
    ensures gaps + GapsFrom(dark, start) ==
            (if end - start >= GAP_MIN_PX then gaps + [Gap(start, end)] else gaps) + GapsFrom(dark, end)
    ensures end < |dark| ==> GapsFrom(dark, end) == GapsFrom(dark, end + 1)
  {
    var rest := GapsFrom(dark, end);
    assert gaps + ([Gap(start, end)] + rest) == gaps + [Gap(start, end)] + rest;
  }

  /** A maximal dark run. */
  predicate IsRun(dark: seq<bool>, start: nat, end: nat) {
    && start < end <= |dark|
    && (forall k :: start <= k < end ==> dark[k])
    && (start > 0 ==> !dark[start - 1])
    && (end < |dark| ==> !dark[end])
  }

  /** No run goes across position `i`. */
  predicate Boundary(dark: seq<bool>, i: nat) {
    i <= |dark| && (0 < i < |dark| ==> !(dark[i - 1] && dark[i]))
  }

  lemma RunFromStart(dark: seq<bool>, i: nat, end: nat)
    requires i < |dark| && dark[i] && IsRun(dark, i, end)
    ensures end == RunEnd(dark, i)
  {
  }

  /** The gaps found are exactly the maximal dark runs of at least two positions. */
  lemma {:induction false} GapIffRun(dark: seq<bool>, i: nat, gap: Gap)
    requires Boundary(dark, i)
    ensures gap in GapsFrom(dark, i) <==> i <= gap.start && IsRun(dark, gap.start, gap.end) && gap.end - gap.start >= GAP_MIN_PX
    decreases |dark| - i
  {
    if i < |dark| {
      if !dark[i] {
        GapIffRun(dark, i + 1, gap);
      } else {
        var end := RunEnd(dark, i);
        GapIffRun(dark, end, gap);
        assert IsRun(dark, i, end);
        if i <= gap.start < end && IsRun(dark, gap.start, gap.end) {
          RunFromStart(dark, i, gap.end);
        }
      }
    }
  }

  /** In order, and no two with nothing between them. */
  predicate Ordered(gaps: seq<Gap>, length: nat) {
    && (forall k :: 0 <= k < |gaps| ==> gaps[k].start + GAP_MIN_PX <= gaps[k].end <= length)
    && (forall j, k :: 0 <= j < k < |gaps| ==> gaps[j].end < gaps[k].start)
  }

  lemma {:induction false} GapsAreOrdered(dark: seq<bool>, i: nat)
    requires i <= |dark|
    ensures Ordered(GapsFrom(dark, i), |dark|) && StartDark(GapsFrom(dark, i), dark, i)
    decreases |dark| - i
  {
    hide RunEnd;
    if i < |dark| {
      if !dark[i] {
        GapsAreOrdered(dark, i + 1);
      } else {
        var end := RunEnd(dark, i);
        GapsAreOrdered(dark, end);
        if end - i >= GAP_MIN_PX {
          GapBefore(dark, i, end, GapsFrom(dark, end));
        }
      }
    }
  }

  /** Each gap starts, at `i` or later, in the dark. */
  predicate StartDark(gaps: seq<Gap>, dark: seq<bool>, i: nat) {
    forall k :: 0 <= k < |gaps| ==> i <= gaps[k].start < |dark| && dark[gaps[k].start]
  }

  lemma GapBefore(dark: seq<bool>, start: nat, end: nat, gaps: seq<Gap>)
    requires start + GAP_MIN_PX <= end <= |dark| && dark[start] && (end < |dark| ==> !dark[end])
    requires Ordered(gaps, |dark|) && StartDark(gaps, dark, end)
    ensures Ordered([Gap(start, end)] + gaps, |dark|) && StartDark([Gap(start, end)] + gaps, dark, start)
  {
    forall k | 0 <= k < |gaps| ensures end < gaps[k].start {
    }
  }

  // ---------- edges ----------

  /** The middle of a gap, halves rounded up. */
  function Middle(gap: Gap): int {
    (gap.start + gap.end + 1) / 2
  }

  predicate Kept(gap: Gap, length: nat) {
    TILE_MIN_PX < Middle(gap) < length - TILE_MIN_PX
  }

  function MiddlesFrom(gaps: seq<Gap>, length: nat, k: nat): seq<int>
    requires k <= |gaps|
    decreases |gaps| - k
  {
    if k == |gaps| then []
    else if Kept(gaps[k], length) then [Middle(gaps[k])] + MiddlesFrom(gaps, length, k + 1)
    else MiddlesFrom(gaps, length, k + 1)
  }

  function Edges(gaps: seq<Gap>, length: nat): seq<int> {
    [0] + MiddlesFrom(gaps, length, 0) + [length]
  }

  method GapsToEdges(gaps: seq<Gap>, length: nat) returns (edges: seq<int>)
    ensures edges == Edges(gaps, length)
  {
    edges := [0];
    for k := 0 to |gaps|
      invariant edges + MiddlesFrom(gaps, length, k) == [0] + MiddlesFrom(gaps, length, 0)
    {
      var mid := (gaps[k].start + gaps[k].end + 1) / 2;
      if mid > TILE_MIN_PX && mid < length - TILE_MIN_PX {
        assert edges + ([mid] + MiddlesFrom(gaps, length, k + 1)) == edges + [mid] + MiddlesFrom(gaps, length, k + 1);
        edges := edges + [mid];
      }
    }
    assert edges + [] == edges;
    edges := edges + [length];
  }

  /** Strictly ascending from 0 to `length`. */
  predicate Spans(edges: seq<int>, length: nat) {
    |edges| >= 2 && edges[0] == 0 && edges[|edges| - 1] == length && Ascending(edges)
  }

  predicate Ascending(s: seq<int>) {
    forall i, j :: 0 <= i < j < |s| ==> s[i] < s[j]
  }

  predicate Between(s: seq<int>, low: int, high: int) {
    forall i :: 0 <= i < |s| ==> low < s[i] < high
  }

  lemma {:induction false} MiddlesAscend(gaps: seq<Gap>, length: nat, k: nat)
    requires Ordered(gaps, length) && k <= |gaps|
    ensures Ascending(MiddlesFrom(gaps, length, k))
    ensures Between(MiddlesFrom(gaps, length, k), TILE_MIN_PX, length - TILE_MIN_PX)
    ensures k < |gaps| ==> Between(MiddlesFrom(gaps, length, k), gaps[k].start, length)
    decreases |gaps| - k
  {
    if k < |gaps| {
      MiddlesAscend(gaps, length, k + 1);
      var rest := MiddlesFrom(gaps, length, k + 1);
      assert k + 1 < |gaps| ==> gaps[k].end < gaps[k + 1].start;
      assert gaps[k].start < Middle(gaps[k]) <= gaps[k].end;
      assert Between(rest, gaps[k].end, length);
    }
  }

  /** The edges strictly ascend from 0 to the length, unless the length is 0 and they are both 0. */
  lemma EdgesSpanIff(gaps: seq<Gap>, length: nat)
    requires Ordered(gaps, length)
    ensures Spans(Edges(gaps, length), length) <==> length > 0
  {
    MiddlesAscend(gaps, length, 0);
    if length > 0 {
      BetweenEnds(MiddlesFrom(gaps, length, 0), length);
    } else {
      var edges := Edges(gaps, length);
      assert edges[0] == 0 && edges[|edges| - 1] == 0;
    }
  }

  lemma BetweenEnds(middles: seq<int>, length: nat)
    requires length > 0 && Between(middles, 0, length) && Ascending(middles)
    ensures Spans([0] + middles + [length], length)
  {
  }

  /** Every inner edge is the middle of a gap, so it runs through the dark. */
  lemma {:induction false} InnerEdgeIsInGap(gaps: seq<Gap>, length: nat, k: nat, edge: int)
    requires Ordered(gaps, length) && k <= |gaps|
    ensures edge in MiddlesFrom(gaps, length, k) <==>
            exists j :: k <= j < |gaps| && Kept(gaps[j], length) && Middle(gaps[j]) == edge
    ensures edge in MiddlesFrom(gaps, length, k) ==> exists j :: k <= j < |gaps| && gaps[j].start < edge < gaps[j].end
    decreases |gaps| - k
  {
    if k < |gaps| {
      InnerEdgeIsInGap(gaps, length, k + 1, edge);
    }
  }

  // ---------- cells and tiles ----------

  function Cell(xEdges: seq<int>, yEdges: seq<int>, row: nat, col: nat): Rect
    requires row + 1 < |yEdges| && col + 1 < |xEdges|
  {
    Rect(xEdges[col], yEdges[row], xEdges[col + 1] - xEdges[col], yEdges[row + 1] - yEdges[row])
  }

  predicate Large(cell: Rect) {
    cell.w >= TILE_MIN_PX && cell.h >= TILE_MIN_PX
  }

  predicate Inside(r: Rect, x: int, y: int) {
    r.x <= x < r.x + r.w && r.y <= y < r.y + r.h
  }

  /** The tiles of the rows before `row` and of the first `col` cells of `row`. */
  function TilesBefore(xEdges: seq<int>, yEdges: seq<int>, row: nat, col: nat): seq<Tile>
    requires |xEdges| >= 2 && row < |yEdges| && col < |xEdges| && (col > 0 ==> row + 1 < |yEdges|)
    decreases row, col
  {
    if col > 0 then
      var before := TilesBefore(xEdges, yEdges, row, col - 1);
      var cell := Cell(xEdges, yEdges, row, col - 1);
      if Large(cell) then before + [Tile(|before| + 1, cell)] else before
    else if row > 0 then TilesBefore(xEdges, yEdges, row - 1, |xEdges| - 1)
    else []
  }

  /** Without a second row or column there is no grid. */
  function Grid(xEdges: seq<int>, yEdges: seq<int>): seq<Tile>
    requires |xEdges| >= 2 && |yEdges| >= 2
  {
    if |xEdges| < 3 && |yEdges| < 3 then [] else TilesBefore(xEdges, yEdges, |yEdges| - 1, 0)
  }

  function EdgesOf(brightness: nat -> real, length: nat): (edges: seq<int>)
    ensures |edges| >= 2
  {
    Edges(GapsFrom(Dark(brightness, length), 0), length)
  }

  method DetectGridTiles(rowBrightness: nat -> real, colBrightness: nat -> real, width: nat, height: nat) returns (tiles: seq<Tile>)
    ensures tiles == Grid(EdgesOf(colBrightness, width), EdgesOf(rowBrightness, height))
  {
    var hGaps := FindGaps(rowBrightness, height);
    var vGaps := FindGaps(colBrightness, width);
    var yEdges := GapsToEdges(hGaps, height);
    var xEdges := GapsToEdges(vGaps, width);
    if |xEdges| < 3 && |yEdges| < 3 {
      return [];
    }
    tiles := CutTiles(xEdges, yEdges);
  }

  method CutTiles(xEdges: seq<int>, yEdges: seq<int>) returns (tiles: seq<Tile>)
    requires |xEdges| >= 2 && |yEdges| >= 2
    ensures tiles == TilesBefore(xEdges, yEdges, |yEdges| - 1, 0)
  {
    tiles := [];
    for row := 0 to |yEdges| - 1
      invariant tiles == TilesBefore(xEdges, yEdges, row, 0)
    {
      for col := 0 to |xEdges| - 1
        invariant tiles == TilesBefore(xEdges, yEdges, row, col)
      {
        var x, y := xEdges[col], yEdges[row];
        var w, h := xEdges[col + 1] - x, yEdges[row + 1] - y;
        if w < TILE_MIN_PX || h < TILE_MIN_PX {
          continue;
        }
        tiles := tiles + [Tile(|tiles| + 1, Rect(x, y, w, h))];
      }
    }
  }

  // ---------- every pixel is in one cell ----------

  /** The strip between two edges that `x` lies in. */
  lemma {:induction false} StripOf(edges: seq<int>, length: nat, x: int, n: nat) returns (k: nat)
    requires Spans(edges, length) && 0 < n < |edges| && 0 <= x < edges[n]
    ensures k < n && edges[k] <= x < edges[k + 1]
  {
    if n == 1 || edges[n - 1] <= x {
      k := n - 1;
    } else {
      k := StripOf(edges, length, x, n - 1);
    }
  }

  lemma OneStrip(edges: seq<int>, length: nat, x: int, j: nat, k: nat)
    requires Spans(edges, length) && j + 1 < |edges| && k + 1 < |edges|
    requires edges[j] <= x < edges[j + 1] && edges[k] <= x < edges[k + 1]
    ensures j == k
  {
  }

  predicate InCell(xEdges: seq<int>, yEdges: seq<int>, row: nat, col: nat, x: int, y: int) {
    row + 1 < |yEdges| && col + 1 < |xEdges| && Inside(Cell(xEdges, yEdges, row, col), x, y)
  }

  /** Before the size filter the cells cover the frame, and no two of them overlap. */
  lemma CellsPartition(xEdges: seq<int>, yEdges: seq<int>, width: nat, height: nat, x: int, y: int) returns (row: nat, col: nat)
    requires Spans(xEdges, width) && Spans(yEdges, height) && 0 <= x < width && 0 <= y < height
    ensures InCell(xEdges, yEdges, row, col, x, y)
    ensures forall r: nat, c: nat :: InCell(xEdges, yEdges, r, c, x, y) ==> r == row && c == col
  {
    row := StripOf(yEdges, height, y, |yEdges| - 1);
    col := StripOf(xEdges, width, x, |xEdges| - 1);
    forall r: nat, c: nat | InCell(xEdges, yEdges, r, c, x, y) ensures r == row && c == col {
      OneStrip(yEdges, height, y, r, row);
      OneStrip(xEdges, width, x, c, col);
    }
  }

  // ---------- the tiles are the large cells ----------

  /** Cell `(r, c)` comes before `(row, col)` from left to right and top to bottom. */
  predicate Precedes(r: nat, c: nat, row: nat, col: nat) {
    r < row || (r == row && c < col)
  }

  /** Tile `k` is a large cell; tiles are numbered from 1. */
  lemma {:induction false} TileIsCell(xEdges: seq<int>, yEdges: seq<int>, row: nat, col: nat, k: nat) returns (r: nat, c: nat)
    requires |xEdges| >= 2 && row < |yEdges| && col < |xEdges| && (col > 0 ==> row + 1 < |yEdges|)
    requires k < |TilesBefore(xEdges, yEdges, row, col)|
    ensures r + 1 < |yEdges| && c + 1 < |xEdges| && Precedes(r, c, row, col) && Large(Cell(xEdges, yEdges, r, c))
    ensures TilesBefore(xEdges, yEdges, row, col)[k] == Tile(k + 1, Cell(xEdges, yEdges, r, c))
    decreases row, col
  {
    if col > 0 {
      if k < |TilesBefore(xEdges, yEdges, row, col - 1)| {
        r, c := TileIsCell(xEdges, yEdges, row, col - 1, k);
      } else {
        r, c := row, col - 1;
      }
    } else {
      r, c := TileIsCell(xEdges, yEdges, row - 1, |xEdges| - 1, k);
    }
  }

  /** Every large cell is a tile. */
  lemma {:induction false} CellIsTile(xEdges: seq<int>, yEdges: seq<int>, row: nat, col: nat, r: nat, c: nat) returns (k: nat)
    requires |xEdges| >= 2 && row < |yEdges| && col < |xEdges| && (col > 0 ==> row + 1 < |yEdges|)
    requires r + 1 < |yEdges| && c + 1 < |xEdges| && Precedes(r, c, row, col) && Large(Cell(xEdges, yEdges, r, c))
    ensures k < |TilesBefore(xEdges, yEdges, row, col)|
    ensures TilesBefore(xEdges, yEdges, row, col)[k].bbox == Cell(xEdges, yEdges, r, c)
    decreases row, col
  {
    if col > 0 {
      if r == row && c == col - 1 {
        k := |TilesBefore(xEdges, yEdges, row, col - 1)|;
      } else {
        k := CellIsTile(xEdges, yEdges, row, col - 1, r, c);
      }
    } else {
      k := CellIsTile(xEdges, yEdges, row - 1, |xEdges| - 1, r, c);
    }
  }

  /** Two tiles come from two cells, in order. */
  lemma {:induction false} TilesInOrder(xEdges: seq<int>, yEdges: seq<int>, row: nat, col: nat, j: nat, k: nat)
    returns (r: nat, c: nat, r': nat, c': nat)
    requires |xEdges| >= 2 && row < |yEdges| && col < |xEdges| && (col > 0 ==> row + 1 < |yEdges|)
    requires j < k < |TilesBefore(xEdges, yEdges, row, col)|
    ensures r + 1 < |yEdges| && c + 1 < |xEdges| && r' + 1 < |yEdges| && c' + 1 < |xEdges| && Precedes(r, c, r', c')
    ensures TilesBefore(xEdges, yEdges, row, col)[j].bbox == Cell(xEdges, yEdges, r, c)
    ensures TilesBefore(xEdges, yEdges, row, col)[k].bbox == Cell(xEdges, yEdges, r', c')
    decreases row, col
  {
    if col > 0 {
      if k < |TilesBefore(xEdges, yEdges, row, col - 1)| {
        r, c, r', c' := TilesInOrder(xEdges, yEdges, row, col - 1, j, k);
      } else {
        r, c := TileIsCell(xEdges, yEdges, row, col - 1, j);
        r', c' := row, col - 1;
      }
    } else {
      r, c, r', c' := TilesInOrder(xEdges, yEdges, row - 1, |xEdges| - 1, j, k);
    }
  }

  lemma TilesDoNotOverlap(xEdges: seq<int>, yEdges: seq<int>, width: nat, height: nat, j: nat, k: nat, x: int, y: int)
    requires Spans(xEdges, width) && Spans(yEdges, height)
    requires j < |Grid(xEdges, yEdges)| && k < |Grid(xEdges, yEdges)|
    requires Inside(Grid(xEdges, yEdges)[j].bbox, x, y) && Inside(Grid(xEdges, yEdges)[k].bbox, x, y)
    ensures j == k
  {
    if j != k {
      var r, c, r', c' := TilesInOrder(xEdges, yEdges, |yEdges| - 1, 0, if j < k then j else k, if j < k then k else j);
      OneStrip(yEdges, height, y, r, r');
      OneStrip(xEdges, width, x, c, c');
    }
  }

  /**
   A pixel of the frame is in exactly one tile if the frame is a grid and the pixel's row and
   column strips are at least 50 wide, and otherwise in none.
   */
  lemma PixelInTileIff(xEdges: seq<int>, yEdges: seq<int>, width: nat, height: nat, x: int, y: int) returns (row: nat, col: nat)
    requires Spans(xEdges, width) && Spans(yEdges, height) && 0 <= x < width && 0 <= y < height
    ensures InCell(xEdges, yEdges, row, col, x, y)
    ensures (exists k :: 0 <= k < |Grid(xEdges, yEdges)| && Inside(Grid(xEdges, yEdges)[k].bbox, x, y)) <==>
            (|xEdges| >= 3 || |yEdges| >= 3) && Large(Cell(xEdges, yEdges, row, col))
  {
    row, col := CellsPartition(xEdges, yEdges, width, height, x, y);
    var tiles := Grid(xEdges, yEdges);
    if (|xEdges| >= 3 || |yEdges| >= 3) && Large(Cell(xEdges, yEdges, row, col)) {
      var k := CellIsTile(xEdges, yEdges, |yEdges| - 1, 0, row, col);
      assert Inside(tiles[k].bbox, x, y);
    }
    if k: nat :| k < |tiles| && Inside(tiles[k].bbox, x, y) {
      var r, c := TileIsCell(xEdges, yEdges, |yEdges| - 1, 0, k);
      assert InCell(xEdges, yEdges, r, c, x, y);
    }
  }

  /** The edges the detector works with span the frame, unless it is empty. */
  lemma DetectedEdgesSpan(brightness: nat -> real, length: nat)
    ensures Spans(EdgesOf(brightness, length), length) <==> length > 0
  {
    GapsAreOrdered(Dark(brightness, length), 0);
    EdgesSpanIff(GapsFrom(Dark(brightness, length), 0), length);
  }
}
