/**
 The report renderer: each Markdown-ish line gets a style, is wrapped rune by rune to the page
 width, and its pieces are placed down the page, on a new page when the next would not fit.
 */
module Pdf {
  import Greedy

  const FONT_SIZE: real := 11.0
  const LINE_HEIGHT: real := 16.0
  const MARGIN_LEFT: real := 40.0
  const MARGIN_TOP: real := 40.0
  const MARGIN_RIGHT: real := 40.0
  const MARGIN_BOTTOM: real := 40.0
  const BULLET_INDENT: real := 14.0
  const BULLET_MARKER: string := "\U{2022} "

  datatype Style = Style(fontSize: real, lineHeight: real, indent: real, marker: string)

  /** The measured width of a text, or the font library's error. */
  datatype Width = Points(width: real) | Unmeasured

  datatype Result<T> = Ok(value: T) | Err

  // ---------- styles ----------

  /** From position `i` on, `s` goes on as `prefix` does. */
  predicate PrefixFrom(s: string, prefix: string, i: nat)
    requires i <= |prefix| && i <= |s|
    ensures PrefixFrom(s, prefix, i) ==> |prefix| <= |s|
    decreases |prefix| - i
  {
    i == |prefix| || (i < |s| && s[i] == prefix[i] && PrefixFrom(s, prefix, i + 1))
  }

  predicate HasPrefix(s: string, prefix: string)
    ensures HasPrefix(s, prefix) ==> |prefix| <= |s|
  {
    PrefixFrom(s, prefix, 0)
  }

  /** `s` from position `i` on without the pairs of stars, taken from the left. */
  function StripFrom(s: string, i: nat): string
    requires i <= |s|
    decreases |s| - i
  {
    if i == |s| then ""
    else if i + 1 < |s| && s[i] == '*' && s[i + 1] == '*' then StripFrom(s, i + 2)
    else [s[i]] + StripFrom(s, i + 1)
  }

  function StripBoldMarkers(s: string): string {
    StripFrom(s, 0)
  }

  function StyleForLine(raw: string): (Style, string) {
    if HasPrefix(raw, "### ") then (Style(12.5, 17.0, 0.0, ""), StripBoldMarkers(raw[4..]))
    else if HasPrefix(raw, "## ") then (Style(15.0, 20.0, 0.0, ""), StripBoldMarkers(raw[3..]))
    else if HasPrefix(raw, "# ") then (Style(20.0, 26.0, 0.0, ""), StripBoldMarkers(raw[2..]))
    else if HasPrefix(raw, "  - ") || HasPrefix(raw, "  * ") then
      (Style(FONT_SIZE, LINE_HEIGHT, BULLET_INDENT * 2.0, BULLET_MARKER), StripBoldMarkers(raw[4..]))
    else if HasPrefix(raw, "- ") || HasPrefix(raw, "* ") then
      (Style(FONT_SIZE, LINE_HEIGHT, BULLET_INDENT, BULLET_MARKER), StripBoldMarkers(raw[2..]))
    else (Style(FONT_SIZE, LINE_HEIGHT, 0.0, ""), StripBoldMarkers(raw))
  }

  /** No pair of stars is left, not even one made by the removal of others. */
  lemma {:induction false} NoMarkersLeft(s: string, i: nat)
    requires i <= |s|
    ensures var r := StripFrom(s, i);
            && (forall k :: 0 <= k < |r| - 1 ==> !(r[k] == '*' && r[k + 1] == '*'))
            && (r != "" && r[0] == '*' ==> i < |s|)
            && (i < |s| && s[i] != '*' ==> r != "" && r[0] == s[i])
    decreases |s| - i
  {
    if i < |s| {
      if i + 1 < |s| && s[i] == '*' && s[i + 1] == '*' {
        NoMarkersLeft(s, i + 2);
      } else {
        NoMarkersLeft(s, i + 1);
      }
    }
  }

  // ---------- wrapping ----------

  /** The library measures every rune of `s` at this font size. */
  predicate Measurable(measure: (real, string) -> Width, size: real, s: string) {
    forall k :: 0 <= k < |s| ==> measure(size, [s[k]]).Points?
  }

  function Weights(measure: (real, string) -> Width, size: real, s: string): (w: seq<real>)
    ensures |w| == |s|
    ensures forall k :: 0 <= k < |s| && measure(size, [s[k]]).Points? ==> w[k] == measure(size, [s[k]]).width
  {
    seq(|s|, k requires 0 <= k < |s| => if measure(size, [s[k]]).Points? then measure(size, [s[k]]).width else 0.0)
  }

  /** The greedy pieces of `s` from position `i` on. */
  function PiecesFrom(s: string, weights: seq<real>, limit: real, i: nat): (r: seq<string>)
    requires |weights| == |s| && i <= |s|
    ensures |r| == Greedy.Pieces(weights, limit, i)
    decreases |s| - i
  {
    if i == |s| then []
    else
      var end := Greedy.PieceEnd(weights, limit, i);
      [s[i..end]] + PiecesFrom(s, weights, limit, end)
  }

  function Wrapped(s: string, weights: seq<real>, limit: real): seq<string>
    requires |weights| == |s|
  {
    if s == "" then [""] else PiecesFrom(s, weights, limit, 0)
  }

  method WrapLine(measure: (real, string) -> Width, size: real, s: string, maxWidth: real) returns (r: Result<seq<string>>)
    ensures r == if Measurable(measure, size, s) then Ok(Wrapped(s, Weights(measure, size, s), maxWidth)) else Err
  {
    hide PiecesFrom, IsPiece;
    if s == "" {
      return Ok([""]);
    }
    var lines: seq<string> := [];
    var current := "";
    var currentWidth := 0.0;
    ghost var weights, start := Weights(measure, size, s), 0;
    NoPieceYet(s, 0);
    for i := 0 to |s|
      invariant 0 <= start <= i && (i > 0 ==> start < i)
      invariant IsPiece(s, start, i, current)
      invariant forall k :: 0 <= k < i ==> measure(size, [s[k]]).Points?
      invariant Greedy.End(weights, maxWidth, start, start, 0.0) == Greedy.End(weights, maxWidth, start, i, currentWidth)
      invariant PiecesFrom(s, weights, maxWidth, 0) == lines + PiecesFrom(s, weights, maxWidth, start)
    {
      var runeWidth := measure(size, [s[i]]);
      if runeWidth.Unmeasured? {
        return Err;
      }
      assert weights[i] == runeWidth.width;
      if currentWidth + runeWidth.width > maxWidth && |current| > 0 {
        PieceDone(lines, s, weights, maxWidth, start, i, current);
        NoPieceYet(s, i);
        lines := lines + [current];
        current := "";
        currentWidth := 0.0;
        start := i;
      }
      PieceGrows(s, start, i, current);
      current := current + [s[i]];
      currentWidth := currentWidth + runeWidth.width;
    }
    PieceDone(lines, s, weights, maxWidth, start, |s|, current);
    NoPieces(s, weights, maxWidth);
    lines := lines + [current];
    assert lines + [] == lines;
    return Ok(lines);
  }

  /** `current` holds the runes of `s` from `start` up to `end`. */
  ghost predicate IsPiece(s: string, start: nat, end: nat, current: string)
    ensures IsPiece(s, start, end, current) ==> start <= end <= |s| && |current| == end - start
  {
    start <= end <= |s| && current == s[start..end]
  }

  lemma NoPieceYet(s: string, i: nat)
    requires i <= |s|
    ensures IsPiece(s, i, i, "")
  {
  }

  lemma PieceGrows(s: string, start: nat, end: nat, current: string)
    requires IsPiece(s, start, end, current) && end < |s|
    ensures IsPiece(s, start, end + 1, current + [s[end]])
  {
  }

  lemma PieceDone(lines: seq<string>, s: string, weights: seq<real>, limit: real, start: nat, end: nat, current: string)
    requires |weights| == |s| && start < |s| && Greedy.PieceEnd(weights, limit, start) == end
    requires IsPiece(s, start, end, current)
    ensures lines + PiecesFrom(s, weights, limit, start) == lines + [current] + PiecesFrom(s, weights, limit, end)
  {
    var rest := PiecesFrom(s, weights, limit, end);
    assert lines + ([current] + rest) == lines + [current] + rest;
  }

  lemma NoPieces(s: string, weights: seq<real>, limit: real)
    requires |weights| == |s|
    ensures PiecesFrom(s, weights, limit, |s|) == []
  {
  }

  function Joined(pieces: seq<string>, k: nat): string
    requires k <= |pieces|
    decreases |pieces| - k
  {
    if k == |pieces| then "" else pieces[k] + Joined(pieces, k + 1)
  }

  lemma {:induction false} JoinedCons(first: string, rest: seq<string>, k: nat)
    requires k <= |rest|
    ensures Joined([first] + rest, k + 1) == Joined(rest, k)
    decreases |rest| - k
  {
    if k < |rest| {
      JoinedCons(first, rest, k + 1);
      assert ([first] + rest)[k + 1] == rest[k];
    }
  }

  /** Nothing is lost: the pieces, joined, are the text. */
  lemma {:induction false} WrapIsLossless(s: string, weights: seq<real>, limit: real, i: nat)
    requires |weights| == |s| && i <= |s|
    ensures Joined(PiecesFrom(s, weights, limit, i), 0) == s[i..]
    decreases |s| - i
  {
    if i < |s| {
      var end := Greedy.PieceEnd(weights, limit, i);
      var rest := PiecesFrom(s, weights, limit, end);
      WrapIsLossless(s, weights, limit, end);
      JoinedCons(s[i..end], rest, 0);
      assert s[i..] == s[i..end] + s[end..];
    }
  }

  function Start(i: nat, cuts: seq<nat>, k: nat): nat
    requires k <= |cuts|
  {
    if k == 0 then i else cuts[k - 1]
  }

  /** `pieces` are what lies between the positions `i`, `cuts[0]`, `cuts[1]` and so on of `s`. */
  ghost predicate CutAt(pieces: seq<string>, s: string, i: nat, cuts: seq<nat>) {
    && |pieces| == |cuts|
    && forall k :: 0 <= k < |cuts| ==> IsPiece(s, Start(i, cuts, k), cuts[k], pieces[k])
  }

  lemma SliceIsPiece(s: string, i: nat, end: nat)
    requires i <= end <= |s|
    ensures IsPiece(s, i, end, s[i..end])
  {
  }

  lemma CutCons(first: string, pieces: seq<string>, s: string, i: nat, end: nat, cuts: seq<nat>)
    requires IsPiece(s, i, end, first) && CutAt(pieces, s, end, cuts)
    ensures CutAt([first] + pieces, s, i, [end] + cuts)
  {
    hide IsPiece;
    var all, ends := [first] + pieces, [end] + cuts;
    forall k | 0 <= k < |ends| ensures IsPiece(s, Start(i, ends, k), ends[k], all[k]) {
      if k > 0 {
        assert IsPiece(s, Start(end, cuts, k - 1), cuts[k - 1], pieces[k - 1]);
      }
    }
  }

  /** `cuts` are the ends of the pieces, each of which fits. */
  lemma {:induction false} WrappedPiecesFit(s: string, weights: seq<real>, limit: real, i: nat) returns (cuts: seq<nat>)
    requires |weights| == |s| && i <= |s|
    ensures Greedy.Split(weights, limit, i, cuts, 0) && CutAt(PiecesFrom(s, weights, limit, i), s, i, cuts)
    decreases |s| - i
  {
    hide IsPiece;
    if i == |s| {
      cuts := [];
    } else {
      var end := Greedy.PieceEnd(weights, limit, i);
      Greedy.EndFits(weights, limit, i, i);
      var rest := WrappedPiecesFit(s, weights, limit, end);
      cuts := [end] + rest;
      SplitCons(weights, limit, end, end, rest, 0);
      SliceIsPiece(s, i, end);
      CutCons(s[i..end], PiecesFrom(s, weights, limit, end), s, i, end, rest);
    }
  }

  lemma {:induction false} SplitCons(weights: seq<real>, limit: real, first: nat, i: nat, cuts: seq<nat>, k: nat)
    requires i <= |weights| && k <= |cuts| && Greedy.Split(weights, limit, i, cuts, k)
    ensures Greedy.Split(weights, limit, i, [first] + cuts, k + 1)
    decreases |cuts| - k
  {
    if k < |cuts| {
      SplitCons(weights, limit, first, cuts[k], cuts, k + 1);
    }
  }

  lemma WrappedJoins(s: string, weights: seq<real>, limit: real)
    requires |weights| == |s|
    ensures Joined(Wrapped(s, weights, limit), 0) == s
  {
    if s == "" {
      assert Joined([""], 1) == "";
    } else {
      WrapIsLossless(s, weights, limit, 0);
      assert s[0..] == s;
    }
  }

  /**
   Wrapping is lossless and optimal: the pieces join to the text, they are a split into pieces
   that fit the width or are a single rune, and no such split has fewer pieces. The empty text
   is one empty piece.
   */
  lemma WrapIsOptimal(s: string, weights: seq<real>, limit: real)
    requires |weights| == |s| && Greedy.NotNegative(weights)
    ensures var pieces := Wrapped(s, weights, limit);
            && Joined(pieces, 0) == s
            && (s != "" ==>
                  && (exists cuts :: Greedy.Split(weights, limit, 0, cuts, 0) && CutAt(pieces, s, 0, cuts))
                  && (forall cuts :: Greedy.Split(weights, limit, 0, cuts, 0) ==> |pieces| <= |cuts|))
            && (s == "" ==> pieces == [""])
  {
    WrappedJoins(s, weights, limit);
    if s != "" {
      var cuts := WrappedPiecesFit(s, weights, limit, 0);
      forall cuts | Greedy.Split(weights, limit, 0, cuts, 0) ensures |Wrapped(s, weights, limit)| <= |cuts| {
        Greedy.GreedyIsOptimal(weights, limit, cuts);
      }
    }
  }

  // ---------- pagination ----------

  /** One piece to place: its text, its height, where it starts, and the marker before a line's first piece. */
  datatype Row = Row(text: string, height: real, x: real, marker: string)
  datatype Placed = Placed(row: Row, page: nat, y: real)
  datatype Page = Page(placed: seq<Placed>, number: nat, y: real)

  const FIRST_PAGE := Page([], 0, MARGIN_TOP)

  function Place(p: Page, row: Row, bottom: real): Page {
    var fresh_ := p.y + row.height > bottom;
    var number, y := if fresh_ then p.number + 1 else p.number, if fresh_ then MARGIN_TOP else p.y;
    Page(p.placed + [Placed(row, number, y)], number, y + row.height)
  }

  /** The placement of the first `n` rows. */
  function Paginated(rows: seq<Row>, n: nat, bottom: real): Page
    requires n <= |rows|
  {
    if n == 0 then FIRST_PAGE else Place(Paginated(rows, n - 1, bottom), rows[n - 1], bottom)
  }

  /** The rows of one wrapped line. */
  function RowsOf(pieces: seq<string>, style: Style, x: real, n: nat): (r: seq<Row>)
    requires n <= |pieces|
    ensures |r| == n
    ensures forall k :: 0 <= k < n ==> r[k] == Row(pieces[k], style.lineHeight, x, if k == 0 then style.marker else "")
  {
    if n == 0 then []
    else RowsOf(pieces, style, x, n - 1) + [Row(pieces[n - 1], style.lineHeight, x, if n == 1 then style.marker else "")]
  }

  lemma {:induction false} PaginateMore(rows: seq<Row>, more: seq<Row>, n: nat, bottom: real)
    requires n <= |rows|
    ensures Paginated(rows + more, n, bottom) == Paginated(rows, n, bottom)
  {
    if n > 0 {
      PaginateMore(rows, more, n - 1, bottom);
    }
  }

  function MarkerWidth(measure: (real, string) -> Width, style: Style): Width {
    if style.marker == "" then Points(0.0) else measure(style.fontSize, style.marker)
  }

  /** The wrapped pieces of one input line, in its style, or the error of measuring it. */
  function LineRows(measure: (real, string) -> Width, raw: string, pageWidth: real): Result<seq<Row>> {
    var (style, content) := StyleForLine(raw);
    var markerWidth := MarkerWidth(measure, style);
    if markerWidth.Unmeasured? || !Measurable(measure, style.fontSize, content) then Err
    else
      var x := MARGIN_LEFT + style.indent;
      var weights := Weights(measure, style.fontSize, content);
      var pieces := Wrapped(content, weights, pageWidth - x - MARGIN_RIGHT - markerWidth.width);
      Ok(RowsOf(pieces, style, x + markerWidth.width, |pieces|))
  }

  /** The rows of the first `n` lines, in order, or the first error. */
  function AllRows(measure: (real, string) -> Width, lines: seq<string>, n: nat, pageWidth: real): Result<seq<Row>>
    requires n <= |lines|
  {
    if n == 0 then Ok([]) else Both(AllRows(measure, lines, n - 1, pageWidth), LineRows(measure, lines[n - 1], pageWidth))
  }

  function Both(a: Result<seq<Row>>, b: Result<seq<Row>>): Result<seq<Row>> {
    if a.Ok? && b.Ok? then Ok(a.value + b.value) else Err
  }

  lemma {:induction false} ErrorStays(measure: (real, string) -> Width, lines: seq<string>, k: nat, n: nat, pageWidth: real)
    requires k <= n <= |lines| && AllRows(measure, lines, k, pageWidth).Err?
    ensures AllRows(measure, lines, n, pageWidth).Err?
    decreases n - k
  {
    hide LineRows;
    if k < n {
      ErrorStays(measure, lines, k, n - 1, pageWidth);
    }
  }

  /** The title as a heading, a blank line, then the lines. */
  function Document(title: string, lines: seq<string>): seq<string> {
    ["# " + title, ""] + lines
  }

  /** The placement of laid-out rows, or their error. */
  function Drawn(rows: Result<seq<Row>>, bottom: real): Result<Page> {
    if rows.Ok? then Ok(Paginated(rows.value, |rows.value|, bottom)) else Err
  }

  method Render(measure: (real, string) -> Width, title: string, lines: seq<string>, pageWidth: real, pageHeight: real)
    returns (r: Result<Page>)
    ensures var doc := Document(title, lines);
            r == Drawn(AllRows(measure, doc, |doc|, pageWidth), pageHeight - MARGIN_BOTTOM)
  {
    hide LineRows;
    var pageBottom := pageHeight - MARGIN_BOTTOM;
    var page := FIRST_PAGE;
    ghost var rows: seq<Row> := [];
    var allLines := Document(title, lines);
    for k := 0 to |allLines|
      invariant AllRows(measure, allLines, k, pageWidth) == Ok(rows)
      invariant page == Paginated(rows, |rows|, pageBottom)
    {
      r := RenderLine(measure, allLines[k], pageWidth, pageBottom, page, rows);
      if r.Err? {
        ErrorStays(measure, allLines, k + 1, |allLines|, pageWidth);
        return Err;
      }
      page := r.value;
      rows := rows + LineRows(measure, allLines[k], pageWidth).value;
    }
    return Ok(page);
  }

  /** One turn of the outer loop; `rows` are those already on `page`. */
  method RenderLine(measure: (real, string) -> Width, raw: string, pageWidth: real, pageBottom: real, page: Page, ghost rows: seq<Row>)
    returns (r: Result<Page>)
    requires page == Paginated(rows, |rows|, pageBottom)
    ensures r == Drawn(Both(Ok(rows), LineRows(measure, raw, pageWidth)), pageBottom)
  {
    hide StyleForLine;
    var (style, content) := StyleForLine(raw);
    var markerWidth := 0.0;
    if style.marker != "" {
      var w := measure(style.fontSize, style.marker);
      if w.Unmeasured? { return Err; }
      markerWidth := w.width;
    }
    var x := MARGIN_LEFT + style.indent;
    var contentWidth := pageWidth - x - MARGIN_RIGHT - markerWidth;
    var wrapped := WrapLine(measure, style.fontSize, content, contentWidth);
    if wrapped.Err? { return Err; }
    var placed := PlacePieces(wrapped.value, style, x + markerWidth, pageBottom, page, rows);
    return Ok(placed);
  }

  method PlacePieces(pieces: seq<string>, style: Style, x: real, pageBottom: real, start: Page, ghost rows: seq<Row>)
    returns (page: Page)
    requires start == Paginated(rows, |rows|, pageBottom)
    ensures var more := rows + RowsOf(pieces, style, x, |pieces|);
            page == Paginated(more, |more|, pageBottom)
  {
    page := start;
    ghost var more := rows;
    for i := 0 to |pieces|
      invariant more == rows + RowsOf(pieces, style, x, i)
      invariant page == Paginated(more, |more|, pageBottom)
    {
      var row := Row(pieces[i], style.lineHeight, x, if i == 0 then style.marker else "");
      PaginateMore(more, [row], |more|, pageBottom);
      assert more + [row] == rows + RowsOf(pieces, style, x, i + 1);
      more := more + [row];
      page := Place(page, row, pageBottom);
    }
  }

  // ---------- where the rows go ----------

  /** The heights that styles have fit between the margins. */
  predicate RowFits(row: Row, bottom: real) {
    0.0 <= row.height && MARGIN_TOP + row.height <= bottom
  }

  /** Every row of a document fits between the margins of a page that holds a first-level heading. */
  lemma {:induction false} RowsOfLinesFit(measure: (real, string) -> Width, lines: seq<string>, n: nat, pageWidth: real, bottom: real)
    requires n <= |lines| && MARGIN_TOP + 26.0 <= bottom && AllRows(measure, lines, n, pageWidth).Ok?
    ensures forall r :: r in AllRows(measure, lines, n, pageWidth).value ==> RowFits(r, bottom)
  {
    hide LineRows, RowFits;
    if n > 0 {
      RowsOfLinesFit(measure, lines, n - 1, pageWidth, bottom);
      LineRowsFit(measure, lines[n - 1], pageWidth, bottom);
    }
  }

  lemma StyleHeights(raw: string)
    ensures 0.0 <= StyleForLine(raw).0.lineHeight <= 26.0
  {
  }

  lemma LineRowsFit(measure: (real, string) -> Width, raw: string, pageWidth: real, bottom: real)
    requires LineRows(measure, raw, pageWidth).Ok? && MARGIN_TOP + 26.0 <= bottom
    ensures forall r :: r in LineRows(measure, raw, pageWidth).value ==> RowFits(r, bottom)
  {
    StyleHeights(raw);
  }

  /** Row `k` is placed on its page below the row before it, or at the top of the next page when it would not have fitted. */
  ghost predicate Follows(a: Placed, b: Placed, bottom: real) {
    if a.y + a.row.height + b.row.height > bottom then b.page == a.page + 1 && b.y == MARGIN_TOP
    else b.page == a.page && b.y == a.y + a.row.height
  }

  /**
   Every row is placed, in order, each within the margins and directly after the one before it;
   a new page is started exactly when the next row would cross the bottom margin.
   */
  lemma {:induction false} PlacementIsSound(rows: seq<Row>, n: nat, bottom: real)
    requires n <= |rows| && forall r :: r in rows ==> RowFits(r, bottom)
    ensures var p := Paginated(rows, n, bottom);
            && |p.placed| == n && (forall k :: 0 <= k < n ==> p.placed[k].row == rows[k])
            && (forall k :: 0 <= k < n ==> MARGIN_TOP <= p.placed[k].y && p.placed[k].y + rows[k].height <= bottom)
            && (forall k :: 0 < k < n ==> Follows(p.placed[k - 1], p.placed[k], bottom))
            && MARGIN_TOP <= p.y
            && (n == 0 ==> p == FIRST_PAGE)
            && (n > 0 ==> p.placed[0].page == 0 && p.placed[0].y == MARGIN_TOP)
            && (n > 0 ==> p.number == p.placed[n - 1].page && p.y == p.placed[n - 1].y + rows[n - 1].height)
  {
    if n > 0 {
      PlacementIsSound(rows, n - 1, bottom);
      assert RowFits(rows[n - 1], bottom);
    }
  }

  function Heights(rows: seq<Row>): (h: seq<real>)
    ensures |h| == |rows| && forall k :: 0 <= k < |rows| ==> h[k] == rows[k].height
  {
    seq(|rows|, k requires 0 <= k < |rows| => rows[k].height)
  }

  /** Filling pages is greedy filling by height; `b` is the first row of the current page. */
  lemma {:induction false} PagesAreGreedy(rows: seq<Row>, n: nat, bottom: real) returns (b: nat)
    requires 0 < n <= |rows| && forall r :: r in rows ==> RowFits(r, bottom)
    ensures var p, h, limit := Paginated(rows, n, bottom), Heights(rows), bottom - MARGIN_TOP;
            && b < n && p.y == MARGIN_TOP + Greedy.Weight(h, b, n)
            && Greedy.PieceEnd(h, limit, b) == Greedy.End(h, limit, b, n, Greedy.Weight(h, b, n))
            && Greedy.Pieces(h, limit, 0) == p.number + Greedy.Pieces(h, limit, b)
  {
    var h, limit, row := Heights(rows), bottom - MARGIN_TOP, rows[n - 1];
    assert RowFits(row, bottom);
    if n == 1 {
      b := 0;
      assert Greedy.Weight(h, 0, 1) == Greedy.Weight(h, 0, 0) + h[0];
      assert Paginated(rows, 0, bottom) == FIRST_PAGE;
    } else {
      var c := PagesAreGreedy(rows, n - 1, bottom);
      var p := Paginated(rows, n - 1, bottom);
      if p.y + row.height > bottom {
        b := n - 1;
        assert Greedy.PieceEnd(h, limit, c) == n - 1;
        assert Greedy.Weight(h, b, n) == Greedy.Weight(h, b, b) + h[b];
      } else {
        b := c;
        assert Greedy.Weight(h, c, n) == Greedy.Weight(h, c, n - 1) + h[n - 1];
      }
    }
  }

  /** No way of cutting the rows into pages that hold them uses fewer pages. */
  lemma PagesAreFewest(rows: seq<Row>, bottom: real, cuts: seq<nat>)
    requires rows != [] && forall r :: r in rows ==> RowFits(r, bottom)
    requires Greedy.Split(Heights(rows), bottom - MARGIN_TOP, 0, cuts, 0)
    ensures Paginated(rows, |rows|, bottom).number + 1 <= |cuts|
  {
    var b := PagesAreGreedy(rows, |rows|, bottom);
    var h := Heights(rows);
    forall k | 0 <= k < |h| ensures h[k] >= 0.0 {
      assert RowFits(rows[k], bottom);
    }
    assert Greedy.PieceEnd(h, bottom - MARGIN_TOP, b) == |rows|;
    assert Greedy.Pieces(h, bottom - MARGIN_TOP, b) == 1;
    Greedy.GreedyIsOptimal(h, bottom - MARGIN_TOP, cuts);
  }

  // ---------- nothing is dropped ----------

  function TextsOf(rows: seq<Row>): (t: seq<string>)
    ensures |t| == |rows| && forall k :: 0 <= k < |rows| ==> t[k] == rows[k].text
  {
    seq(|rows|, k requires 0 <= k < |rows| => rows[k].text)
  }

  /** What the first `n` lines say, without prefixes and bold markers. */
  function Contents(lines: seq<string>, n: nat): string
    requires n <= |lines|
  {
    if n == 0 then "" else Contents(lines, n - 1) + StyleForLine(lines[n - 1]).1
  }

  lemma {:induction false} JoinedShift(a: seq<string>, b: seq<string>, k: nat)
    requires k <= |b|
    ensures Joined(a + b, |a| + k) == Joined(b, k)
    decreases |b| - k
  {
    if k < |b| {
      JoinedShift(a, b, k + 1);
    }
  }

  lemma {:induction false} JoinedAppend(a: seq<string>, b: seq<string>, k: nat)
    requires k <= |a|
    ensures Joined(a + b, k) == Joined(a, k) + Joined(b, 0)
    decreases |a| - k
  {
    if k < |a| {
      JoinedAppend(a, b, k + 1);
      assert a[k] + (Joined(a, k + 1) + Joined(b, 0)) == a[k] + Joined(a, k + 1) + Joined(b, 0);
    } else {
      JoinedShift(a, b, 0);
      assert "" + Joined(b, 0) == Joined(b, 0);
    }
  }

  lemma LineTexts(measure: (real, string) -> Width, raw: string, pageWidth: real)
    requires LineRows(measure, raw, pageWidth).Ok?
    ensures Joined(TextsOf(LineRows(measure, raw, pageWidth).value), 0) == StyleForLine(raw).1
  {
    hide StyleForLine;
    var (style, content) := StyleForLine(raw);
    var x, markerWidth := MARGIN_LEFT + style.indent, MarkerWidth(measure, style).width;
    var weights, limit := Weights(measure, style.fontSize, content), pageWidth - x - MARGIN_RIGHT - markerWidth;
    var pieces := Wrapped(content, weights, limit);
    assert TextsOf(RowsOf(pieces, style, x + markerWidth, |pieces|)) == pieces;
    WrappedJoins(content, weights, limit);
  }

  /** Every character of every line is drawn, in order, apart from the prefixes and the bold markers. */
  lemma {:induction false} EveryCharacterIsPlaced(measure: (real, string) -> Width, lines: seq<string>, n: nat, pageWidth: real)
    requires n <= |lines| && AllRows(measure, lines, n, pageWidth).Ok?
    ensures Joined(TextsOf(AllRows(measure, lines, n, pageWidth).value), 0) == Contents(lines, n)
  {
    hide LineRows, StyleForLine;
    if n > 0 {
      var before, last := AllRows(measure, lines, n - 1, pageWidth).value, LineRows(measure, lines[n - 1], pageWidth).value;
      EveryCharacterIsPlaced(measure, lines, n - 1, pageWidth);
      LineTexts(measure, lines[n - 1], pageWidth);
      assert TextsOf(before + last) == TextsOf(before) + TextsOf(last);
      JoinedAppend(TextsOf(before), TextsOf(last), 0);
    }
  }
}
