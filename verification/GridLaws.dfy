/** The edges of the grid, read off the brightness of the rows or columns. */
module GridLaws {
  import opened GridTiles

  /** Rows or columns `a` up to `b` are dark, at least two of them, and their neighbours are not. */
  ghost predicate DarkBand(brightness: nat -> real, length: nat, a: nat, b: nat) {
    && a + 2 <= b <= length
    && (forall k: nat :: a <= k < b ==> brightness(k) < 55.0)
    && (a > 0 ==> brightness(a - 1) >= 55.0)
    && (b < length ==> brightness(b) >= 55.0)
  }

  lemma BandIsGap(brightness: nat -> real, length: nat, gap: Gap)
    ensures gap in GapsFrom(Dark(brightness, length), 0) <==> DarkBand(brightness, length, gap.start, gap.end)
  {
    var dark := Dark(brightness, length);
    GapIffRun(dark, 0, gap);
    if gap.start < gap.end <= length {
      assert forall k :: gap.start <= k < gap.end ==> (dark[k] <==> brightness(k) < 55.0);
    }
  }

  /** `edge` runs through the middle of a dark band, the lower half of an even one, more than 50 from either border. */
  ghost predicate RunsThrough(brightness: nat -> real, length: nat, edge: int, a: nat, b: nat) {
    DarkBand(brightness, length, a, b) && 2 * edge - 1 <= a + b <= 2 * edge && 50 < edge < length - 50
  }

  lemma {:induction false} MiddlesAre(gaps: seq<Gap>, length: nat, k: nat, edge: int)
    requires k <= |gaps|
    ensures edge in MiddlesFrom(gaps, length, k) <==>
            exists j :: k <= j < |gaps| && Kept(gaps[j], length) && Middle(gaps[j]) == edge
    decreases |gaps| - k
  {
    if k < |gaps| {
      MiddlesAre(gaps, length, k + 1, edge);
    }
  }

  lemma MiddleIs(gap: Gap, length: nat, edge: int)
    ensures Kept(gap, length) && Middle(gap) == edge <==>
            2 * edge - 1 <= gap.start + gap.end <= 2 * edge && 50 < edge < length - 50
  {
  }

  /** The edges are 0, the length, and the middles of the dark bands that leave room on both sides; no others. */
  lemma EdgeIff(brightness: nat -> real, length: nat, edge: int)
    ensures edge in EdgesOf(brightness, length) <==>
            edge == 0 || edge == length || exists a: nat, b: nat :: RunsThrough(brightness, length, edge, a, b)
  {
    var gaps := GapsFrom(Dark(brightness, length), 0);
    MiddlesAre(gaps, length, 0, edge);
    hide GapsFrom, Dark, MiddlesFrom, Kept, Middle, DarkBand;
    if edge in MiddlesFrom(gaps, length, 0) {
      var j :| 0 <= j < |gaps| && Kept(gaps[j], length) && Middle(gaps[j]) == edge;
      BandIsGap(brightness, length, gaps[j]);
      MiddleIs(gaps[j], length, edge);
      assert RunsThrough(brightness, length, edge, gaps[j].start, gaps[j].end);
    }
    if a: nat, b: nat :| RunsThrough(brightness, length, edge, a, b) {
      BandIsGap(brightness, length, Gap(a, b));
      MiddleIs(Gap(a, b), length, edge);
      var j :| 0 <= j < |gaps| && gaps[j] == Gap(a, b);
      assert Kept(gaps[j], length) && Middle(gaps[j]) == edge;
    }
  }

  /** `low` and `high` are edges with none between them. */
  ghost predicate Strip(brightness: nat -> real, length: nat, low: int, high: int) {
    && low in EdgesOf(brightness, length) && high in EdgesOf(brightness, length) && low < high
    && forall e :: low < e < high ==> e !in EdgesOf(brightness, length)
  }

  lemma StripIff(brightness: nat -> real, length: nat, low: int, high: int)
    requires length > 0
    ensures Strip(brightness, length, low, high) <==>
            exists k: nat :: IsStrip(EdgesOf(brightness, length), k, low, high)
  {
    DetectedEdgesSpan(brightness, length);
    hide EdgesOf;
    var edges := EdgesOf(brightness, length);
    if Strip(brightness, length, low, high) {
      var i :| 0 <= i < |edges| && edges[i] == low;
      var j :| 0 <= j < |edges| && edges[j] == high;
      assert i < j;
      assert edges[i + 1] in edges && low < edges[i + 1] <= high;
      assert IsStrip(edges, i, low, high);
    }
    if k: nat :| IsStrip(edges, k, low, high) {
      forall e | low < e < high ensures e !in edges {
        if e in edges {
          var i :| 0 <= i < |edges| && edges[i] == e;
          NoneBetween(edges, length, k, i);
        }
      }
    }
  }

  ghost predicate IsStrip(edges: seq<int>, k: nat, low: int, high: int) {
    k + 1 < |edges| && edges[k] == low && edges[k + 1] == high
  }

  lemma NoneBetween(edges: seq<int>, length: nat, k: nat, i: nat)
    requires Spans(edges, length) && k + 1 < |edges| && i < |edges|
    ensures edges[i] <= edges[k] || edges[k + 1] <= edges[i]
  {
  }

  /** A rectangle is cut out between neighbouring edges of both directions, at least 50 wide and high. */
  ghost predicate CutOut(rows: nat -> real, columns: nat -> real, width: nat, height: nat, r: Rect) {
    && Strip(columns, width, r.x, r.x + r.w) && Strip(rows, height, r.y, r.y + r.h)
    && r.w >= 50 && r.h >= 50
  }

  /** The tiles of a frame that has any inner edge are exactly the rectangles cut out so. */
  lemma TileIff(rows: nat -> real, columns: nat -> real, width: nat, height: nat, r: Rect)
    requires width > 0 && height > 0
    ensures var xEdges, yEdges := EdgesOf(columns, width), EdgesOf(rows, height);
            (exists k :: 0 <= k < |Grid(xEdges, yEdges)| && Grid(xEdges, yEdges)[k].bbox == r) <==>
            (|xEdges| > 2 || |yEdges| > 2) && CutOut(rows, columns, width, height, r)
  {
    var xEdges, yEdges := EdgesOf(columns, width), EdgesOf(rows, height);
    var grid := Grid(xEdges, yEdges);
    StripIff(columns, width, r.x, r.x + r.w);
    StripIff(rows, height, r.y, r.y + r.h);
    hide Strip, EdgesOf;
    if |xEdges| > 2 || |yEdges| > 2 {
      if k: nat :| k < |grid| && grid[k].bbox == r {
        var row, col := TileIsCell(xEdges, yEdges, |yEdges| - 1, 0, k);
        assert IsStrip(xEdges, col, r.x, r.x + r.w) && IsStrip(yEdges, row, r.y, r.y + r.h);
      }
      if CutOut(rows, columns, width, height, r) {
        var col: nat :| IsStrip(xEdges, col, r.x, r.x + r.w);
        var row: nat :| IsStrip(yEdges, row, r.y, r.y + r.h);
        assert Cell(xEdges, yEdges, row, col) == r;
        var k := CellIsTile(xEdges, yEdges, |yEdges| - 1, 0, row, col);
        assert grid[k].bbox == r;
      }
    }
  }
}
