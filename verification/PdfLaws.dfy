/** What the styles, the bold markers and the margins of a report mean, on the text of its lines. */
module PdfLaws {
  import Greedy
  import opened Pdf

  // ---------- prefixes ----------

  lemma {:induction false} PrefixFromIff(s: string, prefix: string, i: nat)
    requires i <= |prefix| && i <= |s|
    ensures PrefixFrom(s, prefix, i) <==> |prefix| <= |s| && forall k :: i <= k < |prefix| ==> s[k] == prefix[k]
    decreases |prefix| - i
  {
    if i < |prefix| && i < |s| {
      PrefixFromIff(s, prefix, i + 1);
    }
  }

  lemma HasPrefixIff(s: string, prefix: string)
    ensures HasPrefix(s, prefix) <==> |prefix| <= |s| && forall k :: 0 <= k < |prefix| ==> s[k] == prefix[k]
  {
    PrefixFromIff(s, prefix, 0);
  }

  const PREFIXES := ["### ", "## ", "# ", "  - ", "  * ", "- ", "* "]

  /** The style of the lines that begin with `PREFIXES[k]`. */
  function StyleOf(k: nat): Style
    requires k < |PREFIXES|
  {
    [Style(12.5, 17.0, 0.0, ""), Style(15.0, 20.0, 0.0, ""), Style(20.0, 26.0, 0.0, ""),
     Style(11.0, 16.0, 28.0, BULLET_MARKER), Style(11.0, 16.0, 28.0, BULLET_MARKER),
     Style(11.0, 16.0, 14.0, BULLET_MARKER), Style(11.0, 16.0, 14.0, BULLET_MARKER)][k]
  }

  /** The first characters tell the seven prefixes apart. */
  lemma PrefixesAre(s: string)
    ensures HasPrefix(s, "### ") <==> |s| >= 4 && s[0] == '#' && s[1] == '#' && s[2] == '#' && s[3] == ' '
    ensures HasPrefix(s, "## ") <==> |s| >= 3 && s[0] == '#' && s[1] == '#' && s[2] == ' '
    ensures HasPrefix(s, "# ") <==> |s| >= 2 && s[0] == '#' && s[1] == ' '
    ensures HasPrefix(s, "  - ") <==> |s| >= 4 && s[0] == ' ' && s[1] == ' ' && s[2] == '-' && s[3] == ' '
    ensures HasPrefix(s, "  * ") <==> |s| >= 4 && s[0] == ' ' && s[1] == ' ' && s[2] == '*' && s[3] == ' '
    ensures HasPrefix(s, "- ") <==> |s| >= 2 && s[0] == '-' && s[1] == ' '
    ensures HasPrefix(s, "* ") <==> |s| >= 2 && s[0] == '*' && s[1] == ' '
  {
    hide HasPrefix;
    HasPrefixIff(s, "### ");
    HasPrefixIff(s, "## ");
    HasPrefixIff(s, "# ");
    HasPrefixIff(s, "  - ");
    HasPrefixIff(s, "  * ");
    HasPrefixIff(s, "- ");
    HasPrefixIff(s, "* ");
  }

  /** A line with one of the seven prefixes has that prefix's style, and says what follows it. */
  lemma StyledByPrefix(k: nat, prefix: string, rest: string)
    requires k < |PREFIXES| && prefix == PREFIXES[k]
    ensures StyleForLine(prefix + rest) == (StyleOf(k), StripBoldMarkers(rest))
  {
    hide StripBoldMarkers, HasPrefix;
    var raw := prefix + rest;
    PrefixesAre(raw);
    assert raw[|prefix|..] == rest;
    assert forall i :: 0 <= i < |prefix| ==> raw[i] == prefix[i];
  }

  /** Any other line is body text, all of it. */
  lemma StyledAsBody(raw: string)
    requires forall k :: 0 <= k < |PREFIXES| ==> !HasPrefix(raw, PREFIXES[k])
    ensures StyleForLine(raw) == (Style(11.0, 16.0, 0.0, ""), StripBoldMarkers(raw))
  {
    hide StripBoldMarkers, HasPrefix;
    assert !HasPrefix(raw, PREFIXES[0]) && !HasPrefix(raw, PREFIXES[1]) && !HasPrefix(raw, PREFIXES[2]);
    assert !HasPrefix(raw, PREFIXES[3]) && !HasPrefix(raw, PREFIXES[4]);
    assert !HasPrefix(raw, PREFIXES[5]) && !HasPrefix(raw, PREFIXES[6]);
  }

  // ---------- bold markers ----------

  lemma {:induction false} StripOfSuffix(s: string, i: nat)
    requires i <= |s|
    ensures StripFrom(s, i) == StripBoldMarkers(s[i..])
    decreases |s| - i
  {
    if i < |s| {
      var t := s[i..];
      if i + 1 < |s| && s[i] == '*' && s[i + 1] == '*' {
        StripOfSuffix(s, i + 2);
        StripShift(s, i, 2);
      } else {
        StripOfSuffix(s, i + 1);
        StripShift(s, i, 1);
      }
    }
  }

  lemma {:induction false} StripShift(s: string, i: nat, j: nat)
    requires i + j <= |s|
    ensures StripFrom(s[i..], j) == StripFrom(s, i + j)
    decreases |s| - i - j
  {
    var t := s[i..];
    if i + j + 1 < |s| && s[i + j] == '*' && s[i + j + 1] == '*' {
      StripShift(s, i, j + 2);
    } else if i + j < |s| {
      StripShift(s, i, j + 1);
    }
  }

  /** A pair of stars goes; any other first character stays. */
  lemma StripStep(s: string)
    ensures |s| >= 2 && s[0] == '*' && s[1] == '*' ==> StripBoldMarkers(s) == StripBoldMarkers(s[2..])
    ensures s != "" && !(|s| >= 2 && s[0] == '*' && s[1] == '*') ==> StripBoldMarkers(s) == [s[0]] + StripBoldMarkers(s[1..])
    ensures s == "" ==> StripBoldMarkers(s) == ""
  {
    if |s| >= 2 && s[0] == '*' && s[1] == '*' {
      StripOfSuffix(s, 2);
    } else if s != "" {
      StripOfSuffix(s, 1);
    }
  }

  /** Stripping works on parts that no run of stars joins. */
  lemma {:induction false} StripSplits(s: string, t: string)
    requires s == "" || s[|s| - 1] != '*' || t == "" || t[0] != '*'
    ensures StripBoldMarkers(s + t) == StripBoldMarkers(s) + StripBoldMarkers(t)
    decreases |s|
  {
    hide StripBoldMarkers;
    StripStep(s);
    StripStep(s + t);
    if s == "" {
      assert s + t == t;
    } else if |s| >= 2 && s[0] == '*' && s[1] == '*' {
      assert (s + t)[2..] == s[2..] + t;
      StripSplits(s[2..], t);
    } else {
      assert (s + t)[1..] == s[1..] + t;
      StripSplits(s[1..], t);
      assert [s[0]] + (StripBoldMarkers(s[1..]) + StripBoldMarkers(t)) == [s[0]] + StripBoldMarkers(s[1..]) + StripBoldMarkers(t);
    }
  }

  function Stars(n: nat): (s: string)
    ensures |s| == n && forall k :: 0 <= k < n ==> s[k] == '*'
  {
    seq(n, _ => '*')
  }

  /** Of a run of stars one is left if their number is odd, and none if it is even. */
  lemma {:induction false} RunsLeaveParity(n: nat)
    ensures StripBoldMarkers(Stars(n)) == if n % 2 == 1 then "*" else ""
  {
    hide StripBoldMarkers;
    StripStep(Stars(n));
    if n >= 2 {
      RunsLeaveParity(n - 2);
      assert Stars(n)[2..] == Stars(n - 2);
    } else if n == 1 {
      assert Stars(1)[1..] == "";
      StripStep("");
    }
  }

  /** Text without two stars in a row is left as it is. */
  lemma {:induction false} PlainIsKept(s: string)
    requires forall k :: 0 <= k < |s| - 1 ==> !(s[k] == '*' && s[k + 1] == '*')
    ensures StripBoldMarkers(s) == s
  {
    hide StripBoldMarkers;
    StripStep(s);
    if s != "" {
      PlainIsKept(s[1..]);
    }
  }

  function Unstarred(s: string): string {
    if s == "" then "" else (if s[0] == '*' then "" else [s[0]]) + Unstarred(s[1..])
  }

  /** All characters but stars stay, in order. */
  lemma {:induction false} OthersAreKept(s: string)
    ensures Unstarred(StripBoldMarkers(s)) == Unstarred(s)
  {
    hide StripBoldMarkers;
    StripStep(s);
    if |s| >= 2 && s[0] == '*' && s[1] == '*' {
      OthersAreKept(s[2..]);
      assert Unstarred(s[1..]) == "" + Unstarred(s[2..]) by { assert s[1..][1..] == s[2..]; }
    } else if s != "" {
      OthersAreKept(s[1..]);
      var r := StripBoldMarkers(s);
      assert r[1..] == StripBoldMarkers(s[1..]);
    }
  }

  // ---------- the text of a document ----------

  lemma {:induction false} ContentsAfter(head: seq<string>, lines: seq<string>, n: nat)
    requires n <= |lines|
    ensures Contents(head + lines, |head| + n) == Contents(head, |head|) + Contents(lines, n)
  {
    hide StyleForLine;
    if n == 0 {
      ContentsOfHead(head, lines, |head|);
    } else {
      ContentsAfter(head, lines, n - 1);
      assert (head + lines)[|head| + n - 1] == lines[n - 1];
    }
  }

  lemma {:induction false} ContentsOfHead(head: seq<string>, lines: seq<string>, n: nat)
    requires n <= |head|
    ensures Contents(head + lines, n) == Contents(head, n)
  {
    hide StyleForLine;
    if n > 0 {
      ContentsOfHead(head, lines, n - 1);
    }
  }

  /** A rendered report says its title and then its lines, each without prefix and bold markers. */
  lemma DocumentSays(measure: (real, string) -> Width, title: string, lines: seq<string>, pageWidth: real)
    requires var doc := Document(title, lines); AllRows(measure, doc, |doc|, pageWidth).Ok?
    ensures var doc := Document(title, lines);
            Joined(TextsOf(AllRows(measure, doc, |doc|, pageWidth).value), 0) == StripBoldMarkers(title) + Contents(lines, |lines|)
  {
    EveryCharacterIsPlaced(measure, Document(title, lines), |Document(title, lines)|, pageWidth);
    ContentsAfter(["# " + title, ""], lines, |lines|);
    HeadSays(title);
    hide StyleForLine, StripBoldMarkers, AllRows, Joined, Contents;
  }

  lemma HeadSays(title: string)
    ensures Contents(["# " + title, ""], 2) == StripBoldMarkers(title)
  {
    var head := ["# " + title, ""];
    assert PREFIXES[2] == "# ";
    StyledByPrefix(2, "# ", title);
    forall k | 0 <= k < |PREFIXES| ensures !HasPrefix("", PREFIXES[k]) {
      HasPrefixIff("", PREFIXES[k]);
    }
    StyledAsBody("");
    StripStep("");
    hide StyleForLine, StripBoldMarkers;
    assert Contents(head, 1) == Contents(head, 0) + StripBoldMarkers(title);
  }

  // ---------- margins ----------

  /** The measured width of a text, rune by rune. */
  function TextWidth(measure: (real, string) -> Width, size: real, s: string): real
    requires Measurable(measure, size, s)
  {
    if s == "" then 0.0 else TextWidth(measure, size, s[..|s| - 1]) + measure(size, [s[|s| - 1]]).width
  }

  lemma {:induction false} WeightIsWidth(measure: (real, string) -> Width, size: real, s: string, start: nat, end: nat)
    requires Measurable(measure, size, s) && start <= end <= |s|
    ensures Measurable(measure, size, s[start..end])
    ensures TextWidth(measure, size, s[start..end]) == Greedy.Weight(Weights(measure, size, s), start, end)
    decreases end
  {
    if start < end {
      WeightIsWidth(measure, size, s, start, end - 1);
      var t := s[start..end];
      assert t[..|t| - 1] == s[start..end - 1];
    }
  }

  /** The piece fits its line, or is a single rune that does not, or empty. */
  ghost predicate Narrow(measure: (real, string) -> Width, size: real, piece: string, limit: real) {
    Measurable(measure, size, piece) && (|piece| <= 1 || TextWidth(measure, size, piece) <= limit)
  }

  lemma {:induction false} PiecesAreNarrow(measure: (real, string) -> Width, size: real, s: string, limit: real, i: nat)
    requires Measurable(measure, size, s) && i <= |s|
    ensures forall p :: p in PiecesFrom(s, Weights(measure, size, s), limit, i) ==> Narrow(measure, size, p, limit)
    decreases |s| - i
  {
    hide Measurable, Weights, TextWidth;
    if i < |s| {
      var weights := Weights(measure, size, s);
      var end := Greedy.PieceEnd(weights, limit, i);
      PiecesAreNarrow(measure, size, s, limit, end);
      Greedy.EndFits(weights, limit, i, i);
      WeightIsWidth(measure, size, s, i, end);
    }
  }

  /**
   Every row of a line has the line's height, starts right of the left margin, its indent and its
   marker, and ends left of the right margin unless it is a single rune; the marker stands before the
   first row only.
   */
  lemma RowsKeepMargins(measure: (real, string) -> Width, raw: string, pageWidth: real)
    requires LineRows(measure, raw, pageWidth).Ok?
    ensures var style, rows := StyleForLine(raw).0, LineRows(measure, raw, pageWidth).value;
            MarkerWidth(measure, style).Points? &&
            var x := 40.0 + style.indent + MarkerWidth(measure, style).width;
            forall k :: 0 <= k < |rows| ==>
              && rows[k].height == style.lineHeight && rows[k].x == x
              && rows[k].marker == (if k == 0 then style.marker else "")
              && Narrow(measure, style.fontSize, rows[k].text, pageWidth - 40.0 - x)
  {
    hide StyleForLine, Greedy.Weight, TextWidth, PiecesFrom;
    var (style, content) := StyleForLine(raw);
    var width := MarkerWidth(measure, style).width;
    var limit := pageWidth - (MARGIN_LEFT + style.indent) - MARGIN_RIGHT - width;
    var weights := Weights(measure, style.fontSize, content);
    var pieces := Wrapped(content, weights, limit);
    PiecesAreNarrow(measure, style.fontSize, content, limit, 0);
    forall p | p in pieces ensures Narrow(measure, style.fontSize, p, limit) {
    }
    forall k | 0 <= k < |pieces| ensures Narrow(measure, style.fontSize, pieces[k], limit) {
      assert pieces[k] in pieces;
    }
  }
}
