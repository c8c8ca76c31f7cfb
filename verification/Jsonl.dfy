/**
 JSON-lines objects: what appending writes, the byte-scanning reader of the Cloud
 Storage backend and the line scanner of the local backend. Each byte is one character.
 */
module Jsonl {

  const NEWLINE: char := '\n'
  const RETURN: char := '\r'
  /** The local scanner's buffer limit; a line must leave room for its newline. */
  const MAX_TOKEN: nat := 0x10_0000

  datatype Result<T> = Ok(value: T) | TooLong

  predicate OneLine(data: string) {
    forall i :: 0 <= i < |data| ==> data[i] != NEWLINE
  }

  /** What an encoder writes for one value: not empty and without a newline. */
  predicate Encoded(line: string) {
    line != [] && OneLine(line)
  }

  /** The first newline at or after `start`, or the end. */
  function NewlineFrom(data: string, start: nat): (n: nat)
    requires start <= |data|
    ensures start <= n <= |data|
    decreases |data| - start
  {
    if start == |data| || data[start] == NEWLINE then start else NewlineFrom(data, start + 1)
  }

  predicate NoneIn(data: string, start: nat, n: nat)
    requires n <= |data|
  {
    forall k :: start <= k < n ==> data[k] != NEWLINE
  }

  lemma {:induction false} NewlineIs(data: string, start: nat, n: nat)
    requires start <= n <= |data|
    ensures NewlineFrom(data, start) == n <==> NoneIn(data, start, n) && (n < |data| ==> data[n] == NEWLINE)
    decreases n - start
  {
    if start < n && data[start] != NEWLINE {
      NewlineIs(data, start + 1, n);
    }
  }

  function One(line: string): seq<string> {
    if line == [] then [] else [line]
  }

  /** The Cloud Storage reader from `start` on: empty lines are skipped, an unterminated rest is dropped. */
  function LinesFrom(data: string, start: nat): seq<string>
    requires start <= |data|
    decreases |data| - start
  {
    var n := NewlineFrom(data, start);
    if n == |data| then [] else One(data[start..n]) + LinesFrom(data, n + 1)
  }

  function ReadLines(data: string): seq<string> {
    LinesFrom(data, 0)
  }

  predicate Terminated(data: string) {
    data == [] || data[|data| - 1] == NEWLINE
  }

  function Appended(data: string, line: string): string {
    data + line + [NEWLINE]
  }

  /** What appending `lines` in turn leaves in the object. */
  function Flatten(lines: seq<string>): string {
    if lines == [] then [] else Appended(Flatten(lines[..|lines| - 1]), lines[|lines| - 1])
  }

  lemma LinesAt(data: string, start: nat, n: nat)
    requires start <= n < |data| && data[n] == NEWLINE && NoneIn(data, start, n)
    ensures LinesFrom(data, start) == One(data[start..n]) + LinesFrom(data, n + 1)
  {
    NewlineIs(data, start, n);
  }

  lemma EndsInNewline(data: string, start: nat)
    requires Terminated(data) && start < |data|
    ensures NewlineFrom(data, start) < |data|
  {
    NewlineIs(data, start, |data|);
  }

  /** The line just appended, read from where it starts. */
  lemma ReadAppended(data: string, line: string)
    requires Encoded(line)
    ensures LinesFrom(Appended(data, line), |data|) == [line]
  {
    var all, n := Appended(data, line), |data| + |line|;
    assert NoneIn(all, |data|, n) by {
      assert forall k :: |data| <= k < n ==> all[k] == line[k - |data|];
    }
    LinesAt(all, |data|, n);
    assert all[|data|..n] == line;
    assert LinesFrom(all, n + 1) == [];
  }

  /** A line inside `data` is read the same after an append. */
  lemma SameLine(data: string, line: string, start: nat)
    requires start < |data| && NewlineFrom(data, start) < |data|
    ensures var n := NewlineFrom(data, start);
            LinesFrom(Appended(data, line), start) == One(data[start..n]) + LinesFrom(Appended(data, line), n + 1)
  {
    hide LinesFrom, NewlineFrom, One;
    var all, n := Appended(data, line), NewlineFrom(data, start);
    NewlineIs(data, start, n);
    assert NoneIn(all, start, n) by {
      assert forall k :: start <= k < n ==> all[k] == data[k];
    }
    LinesAt(all, start, n);
    assert all[start..n] == data[start..n];
  }

  lemma {:induction false} AppendFrom(data: string, line: string, start: nat)
    requires Terminated(data) && Encoded(line) && start <= |data|
    ensures LinesFrom(Appended(data, line), start) == LinesFrom(data, start) + [line]
    decreases |data| - start
  {
    hide One, Appended, Encoded, Terminated;
    if start == |data| {
      ReadAppended(data, line);
    } else {
      EndsInNewline(data, start);
      SameLine(data, line, start);
      var n := NewlineFrom(data, start);
      AppendFrom(data, line, n + 1);
      var first, rest := One(data[start..n]), LinesFrom(data, n + 1);
      assert first + (rest + [line]) == first + rest + [line];
    }
  }

  /** The content is a concatenation of whole, newline-terminated encoded lines. */
  predicate WholeLines(data: string) {
    && Terminated(data) && Flatten(ReadLines(data)) == data
    && forall l :: l in ReadLines(data) ==> Encoded(l)
  }

  /** Appending one line to whole lines adds exactly it, at the end, to what is read back. */
  lemma AppendLine(data: string, line: string)
    requires Terminated(data) && Encoded(line)
    ensures Terminated(Appended(data, line))
    ensures ReadLines(Appended(data, line)) == ReadLines(data) + [line]
    ensures WholeLines(data) ==> WholeLines(Appended(data, line))
  {
    AppendFrom(data, line, 0);
    var lines := ReadLines(data) + [line];
    assert lines[..|lines| - 1] == ReadLines(data);
  }

  /** For any payloads appended, the reader returns exactly them, in order. */
  lemma {:induction false} AppendReadRoundTrip(lines: seq<string>)
    requires forall l :: l in lines ==> Encoded(l)
    ensures Terminated(Flatten(lines)) && ReadLines(Flatten(lines)) == lines
  {
    if lines != [] {
      var most, last := lines[..|lines| - 1], lines[|lines| - 1];
      AppendReadRoundTrip(most);
      AppendLine(Flatten(most), last);
      assert most + [last] == lines;
    }
  }

  // ---------- the readers ----------

  method ReadAll(data: string) returns (lines: seq<string>)
    ensures lines == ReadLines(data)
  {
    hide LinesFrom, NewlineFrom;
    lines := [];
    var start := 0;
    for i := 0 to |data|
      invariant 0 <= start <= i
      invariant NoneIn(data, start, i)
      invariant ReadLines(data) == lines + LinesFrom(data, start)
    {
      if data[i] != NEWLINE {
        continue;
      }
      LinesStep(lines, data, start, i);
      if i > start {
        lines := lines + [data[start..i]];
      }
      start := i + 1;
    }
    NothingMore(data, start);
    assert lines + [] == lines;
  }

  lemma NothingMore(data: string, start: nat)
    requires start <= |data| && NoneIn(data, start, |data|)
    ensures LinesFrom(data, start) == []
  {
    NewlineIs(data, start, |data|);
  }

  /** What the reader does at the newline that ends the current line. */
  lemma LinesStep(lines: seq<string>, data: string, start: nat, n: nat)
    requires start <= n < |data| && data[n] == NEWLINE && NoneIn(data, start, n)
    ensures lines + LinesFrom(data, start) ==
            (if n > start then lines + [data[start..n]] else lines) + LinesFrom(data, n + 1)
  {
    LinesAt(data, start, n);
    var first, rest := One(data[start..n]), LinesFrom(data, n + 1);
    assert lines + (first + rest) == lines + first + rest;
    assert lines + [] == lines;
  }

  /** Where the token of the line from `i` to `n` ends: before one carriage return, if there is one. */
  function TokenEnd(data: string, i: nat, n: nat): (end: nat)
    requires i <= n <= |data|
    ensures i <= end <= n
  {
    if i < n && data[n - 1] == RETURN then n - 1 else n
  }

  function Token(data: string, i: nat, n: nat): string
    requires i <= n <= |data|
  {
    data[i..TokenEnd(data, i, n)]
  }

  /** The local reader: tokens end at a newline or at the end, lose one carriage return, and must fit the buffer. */
  function LocalFrom(data: string, start: nat): Result<seq<string>>
    requires start <= |data|
    decreases |data| - start
  {
    if start == |data| then Ok([])
    else
      var n := NewlineFrom(data, start);
      if n - start >= MAX_TOKEN then TooLong
      else Joined(One(Token(data, start, n)), LocalFrom(data, After(data, n)))
  }

  function LocalLines(data: string): Result<seq<string>> {
    LocalFrom(data, 0)
  }

  /** Where the scanner goes on after a token that ends at `n`. */
  function After(data: string, n: nat): (next: nat)
    requires n <= |data|
    ensures n <= next <= |data|
  {
    if n == |data| then n else n + 1
  }

  /** The lines read so far followed by those of the rest, unless the rest fails. */
  function Joined(lines: seq<string>, r: Result<seq<string>>): Result<seq<string>> {
    if r.Ok? then Ok(lines + r.value) else TooLong
  }

  lemma JoinNone(r: Result<seq<string>>)
    ensures Joined([], r) == r
  {
    if r.Ok? {
      assert [] + r.value == r.value;
    }
  }

  lemma JoinTwice(a: seq<string>, b: seq<string>, r: Result<seq<string>>)
    ensures Joined(a, Joined(b, r)) == Joined(a + b, r)
  {
    if r.Ok? {
      assert a + (b + r.value) == a + b + r.value;
    }
  }

  /** One `Scan` from `start`: the next token, and where the following one starts. */
  method Scan(data: string, start: nat) returns (token: Result<string>, next: nat)
    requires start <= |data|
    ensures var n := NewlineFrom(data, start);
            if n - start >= MAX_TOKEN then token == TooLong
            else token == Ok(Token(data, start, n)) && next == After(data, n)
  {
    var i := start;
    while i < |data| && data[i] != NEWLINE
      invariant start <= i <= |data| && i - start < MAX_TOKEN
      invariant NewlineFrom(data, start) == NewlineFrom(data, i)
    {
      i := i + 1;
      if i - start == MAX_TOKEN {
        return TooLong, start;
      }
    }
    return Ok(Token(data, start, i)), After(data, i);
  }

  method LocalReadAll(data: string) returns (r: Result<seq<string>>)
    ensures r == LocalLines(data)
  {
    var lines: seq<string> := [];
    var start := 0;
    JoinNone(LocalLines(data));
    while start < |data|
      invariant 0 <= start <= |data|
      invariant LocalLines(data) == Joined(lines, LocalFrom(data, start))
      decreases |data| - start
    {
      var token, next := Scan(data, start);
      if token.TooLong? {
        return TooLong;
      }
      JoinTwice(lines, One(token.value), LocalFrom(data, next));
      if token.value != [] {
        lines := lines + [token.value];
      } else {
        assert lines + [] == lines;
      }
      start := next;
    }
    assert lines + [] == lines;
    return Ok(lines);
  }

  // ---------- when the two backends agree ----------

  /** A line both readers return unchanged. */
  predicate Plain(data: string, i: nat, n: nat)
    requires i <= n <= |data|
  {
    n - i < MAX_TOKEN && (i < n ==> data[n - 1] != RETURN)
  }

  /** A line of `data`, empty ones included. */
  predicate IsLine(data: string, i: int, n: int) {
    && 0 <= i <= n < |data| && data[n] == NEWLINE
    && (i == 0 || data[i - 1] == NEWLINE)
    && NoneIn(data, i, n)
  }

  predicate PlainFrom(data: string, start: nat)
    requires start <= |data|
    decreases |data| - start
  {
    var n := NewlineFrom(data, start);
    n == |data| || (Plain(data, start, n) && PlainFrom(data, n + 1))
  }

  /** A line at or after `start` is the one that starts there or comes after it. */
  lemma LineStarts(data: string, start: nat, i: nat, m: nat)
    requires start <= i && IsLine(data, i, m)
    ensures var n := NewlineFrom(data, start); n < |data| && ((i == start && m == n) || n + 1 <= i)
  {
    var n := NewlineFrom(data, start);
    NewlineIs(data, start, n);
    if i == start {
      NewlineIs(data, start, m);
    } else {
      assert data[i - 1] == NEWLINE;
    }
  }

  lemma {:induction false} PlainFromMeans(data: string, start: nat)
    requires start <= |data| && (start == 0 || data[start - 1] == NEWLINE)
    ensures PlainFrom(data, start) <==> forall i, n :: start <= i && IsLine(data, i, n) ==> Plain(data, i, n)
    decreases |data| - start
  {
    var n := NewlineFrom(data, start);
    NewlineIs(data, start, n);
    if n < |data| {
      PlainFromMeans(data, n + 1);
    }
    forall i, m | start <= i && IsLine(data, i, m)
      ensures n < |data| && ((i == start && m == n) || n + 1 <= i)
    {
      LineStarts(data, start, i, m);
    }
    assert n < |data| ==> IsLine(data, start, n);
  }

  function Size(lines: seq<string>): int {
    if lines == [] then 0 else |lines[0]| + Size(lines[1..])
  }

  /** `size` adds up the lengths of lines. */
  ghost predicate AddsUp(size: seq<string> -> int) {
    size([]) == 0 && forall line, rest :: size(One(line) + rest) == |line| + size(rest)
  }

  lemma SizeAddsUp()
    ensures AddsUp(Size)
  {
    forall line: string, rest: seq<string> ensures Size(One(line) + rest) == |line| + Size(rest) {
      if line != [] {
        assert ([line] + rest)[1..] == rest;
      } else {
        assert [] + rest == rest;
      }
    }
  }

  lemma LocalAt(data: string, start: nat)
    requires start < |data| && NewlineFrom(data, start) < |data| && LocalFrom(data, start).Ok?
    ensures var n := NewlineFrom(data, start);
            && n - start < MAX_TOKEN && LocalFrom(data, n + 1).Ok?
            && LocalFrom(data, start).value == One(Token(data, start, n)) + LocalFrom(data, n + 1).value
  {
  }

  /** How many carriage returns the local reader drops. */
  function Dropped(data: string, start: nat): nat
    requires start <= |data|
    decreases |data| - start
  {
    var n := NewlineFrom(data, start);
    if n == |data| then 0
    else n - TokenEnd(data, start, n) + Dropped(data, n + 1)
  }

  /** The characters in the lines from `start` on. */
  function Total(data: string, start: nat): nat
    requires start <= |data|
    decreases |data| - start
  {
    var n := NewlineFrom(data, start);
    if n == |data| then 0 else n - start + Total(data, n + 1)
  }

  lemma {:induction false} LinesTotal(size: seq<string> -> int, data: string, start: nat)
    requires AddsUp(size) && start <= |data|
    ensures size(LinesFrom(data, start)) == Total(data, start)
    decreases |data| - start
  {
    var n := NewlineFrom(data, start);
    if n < |data| {
      LinesTotal(size, data, n + 1);
      assert size(LinesFrom(data, start)) == size(One(data[start..n]) + LinesFrom(data, n + 1));
    }
  }

  lemma {:induction false} LocalTotal(size: seq<string> -> int, data: string, start: nat)
    requires AddsUp(size) && Terminated(data) && start <= |data| && LocalFrom(data, start).Ok?
    ensures size(LocalFrom(data, start).value) == Total(data, start) - Dropped(data, start)
    decreases |data| - start
  {
    if start < |data| {
      EndsInNewline(data, start);
      LocalAt(data, start);
      LocalTotal(size, data, NewlineFrom(data, start) + 1);
    }
  }

  lemma {:induction false} NoneDropped(data: string, start: nat)
    requires Terminated(data) && start <= |data| && LocalFrom(data, start).Ok? && Dropped(data, start) == 0
    ensures PlainFrom(data, start)
    decreases |data| - start
  {
    if start < |data| {
      EndsInNewline(data, start);
      LocalAt(data, start);
      NoneDropped(data, NewlineFrom(data, start) + 1);
    }
  }

  lemma {:induction false} PlainIsRead(data: string, start: nat)
    requires Terminated(data) && start <= |data|
    requires PlainFrom(data, start)
    ensures LocalFrom(data, start) == Ok(LinesFrom(data, start))
    decreases |data| - start
  {
    if start < |data| {
      EndsInNewline(data, start);
      var n := NewlineFrom(data, start);
      PlainIsRead(data, n + 1);
    }
  }

  /**
   On every newline-terminated content, the two backends read the same lines if and only
   if no line ends in a carriage return and every line fits the local scanner's buffer.
   */
  lemma BackendsAgreeIff(data: string)
    requires Terminated(data)
    ensures LocalLines(data) == Ok(ReadLines(data)) <==>
            forall i, n :: IsLine(data, i, n) ==> Plain(data, i, n)
  {
    PlainFromMeans(data, 0);
    if LocalLines(data) == Ok(ReadLines(data)) {
      SizeAddsUp();
      LinesTotal(Size, data, 0);
      LocalTotal(Size, data, 0);
      NoneDropped(data, 0);
    }
    if PlainFrom(data, 0) {
      PlainIsRead(data, 0);
    }
  }

  // ---------- content that does not end in a newline ----------

  /** What comes after the last newline. */
  function RestFrom(data: string, start: nat): string
    requires start <= |data|
    decreases |data| - start
  {
    var n := NewlineFrom(data, start);
    if n == |data| then data[start..] else RestFrom(data, n + 1)
  }

  lemma {:induction false} TerminatedIffNoRest(data: string, start: nat)
    requires start <= |data| && (start == 0 || data[start - 1] == NEWLINE)
    ensures Terminated(data) <==> RestFrom(data, start) == ""
    decreases |data| - start
  {
    var n := NewlineFrom(data, start);
    NewlineIs(data, start, n);
    if n < |data| {
      TerminatedIffNoRest(data, n + 1);
    }
  }

  /** A rest as the local reader returns it. */
  function Chomped(rest: string): string {
    Token(rest, 0, |rest|)
  }

  lemma LastToken(data: string, start: nat)
    requires start <= |data|
    ensures Token(data, start, |data|) == Chomped(data[start..])
  {
  }

  lemma PlainToken(data: string, i: nat, n: nat)
    requires i <= n <= |data| && Plain(data, i, n)
    ensures Token(data, i, n) == data[i..n]
  {
  }

  lemma NoToken()
    ensures One(Chomped("")) == []
  {
  }

  /** With plain lines before it, the local reader adds the rest to what the other reader returns, or fails on it. */
  lemma {:induction false} RestIsAdded(data: string, start: nat)
    requires start <= |data| && PlainFrom(data, start)
    ensures var rest := RestFrom(data, start);
            LocalFrom(data, start) ==
            if |rest| >= MAX_TOKEN then TooLong else Ok(LinesFrom(data, start) + One(Chomped(rest)))
    decreases |data| - start
  {
    hide One, Token;
    var n := NewlineFrom(data, start);
    if n == |data| {
      LastToken(data, start);
      NoToken();
      var last := One(Chomped(data[start..]));
      assert LocalFrom(data, |data|) == Ok([]);
      assert last + [] == last && [] + last == last;
    } else {
      RestIsAdded(data, n + 1);
      PlainToken(data, start, n);
      var first, rest := One(data[start..n]), One(Chomped(RestFrom(data, n + 1)));
      assert first + (LinesFrom(data, n + 1) + rest) == first + LinesFrom(data, n + 1) + rest;
    }
  }

  /** No line is a carriage return and nothing else. */
  ghost predicate NoLoneReturn(data: string) {
    forall i, n :: IsLine(data, i, n) ==> data[i..n] != [RETURN]
  }

  lemma SameFirstLine(a: string, b: string, x: seq<string>, y: seq<string>)
    requires a != "" && b != "" && One(a) + x == One(b) + y
    ensures a == b && x == y
  {
    assert (One(a) + x)[0] == a && (One(b) + y)[0] == b;
    assert (One(a) + x)[1..] == x && (One(b) + y)[1..] == y;
  }

  lemma AgreeingLine(data: string, start: nat, n: nat, x: seq<string>, y: seq<string>)
    requires start <= n <= |data| && n - start < MAX_TOKEN && data[start..n] != [RETURN]
    requires One(Token(data, start, n)) + x == One(data[start..n]) + y
    ensures Plain(data, start, n) && x == y
  {
    var line, token := data[start..n], Token(data, start, n);
    if line == "" {
      assert token == "" && [] + x == x && [] + y == y;
    } else {
      assert token != "";
      SameFirstLine(token, line, x, y);
      assert |token| == |line|;
    }
  }

  lemma {:induction false} AgreeingLinesArePlain(data: string, start: nat)
    requires start <= |data| && (start == 0 || data[start - 1] == NEWLINE)
    requires NoLoneReturn(data) && LocalFrom(data, start) == Ok(LinesFrom(data, start))
    ensures PlainFrom(data, start)
    decreases |data| - start
  {
    hide Token, One, Plain;
    var n := NewlineFrom(data, start);
    if n < |data| {
      NewlineIs(data, start, n);
      LocalAt(data, start);
      assert IsLine(data, start, n);
      AgreeingLine(data, start, n, LocalFrom(data, n + 1).value, LinesFrom(data, n + 1));
      AgreeingLinesArePlain(data, n + 1);
    }
  }

  /**
   On every content without a line that is a lone carriage return, so on all that encoders of JSON
   write, cut off anywhere, the two backends read the same lines if and only if no line ends in a
   carriage return, every line fits the local scanner's buffer, and nothing but perhaps a carriage
   return comes after the last newline.
   */
  lemma CutOffBackendsAgreeIff(data: string)
    requires NoLoneReturn(data)
    ensures LocalLines(data) == Ok(ReadLines(data)) <==>
            && (forall i, n :: IsLine(data, i, n) ==> Plain(data, i, n))
            && (RestFrom(data, 0) == "" || RestFrom(data, 0) == [RETURN])
  {
    PlainFromMeans(data, 0);
    var rest, lines := RestFrom(data, 0), ReadLines(data);
    if LocalLines(data) == Ok(lines) {
      AgreeingLinesArePlain(data, 0);
    }
    if PlainFrom(data, 0) {
      RestIsAdded(data, 0);
      assert lines + [] == lines;
      assert Chomped(rest) != "" ==> |lines + One(Chomped(rest))| == |lines| + 1;
    }
  }

  /** With lone carriage returns the two can agree by accident, each line read as the next one chomped. */
  lemma LoneReturnsCanAgree()
    ensures var data := "\r\n\r\r\n\r\r\r"; LocalLines(data) == Ok(ReadLines(data)) && !Terminated(data)
  {
    var data := "\r\n\r\r\n\r\r\r";
    NewlineIs(data, 0, 1);
    NewlineIs(data, 2, 4);
    NewlineIs(data, 5, 8);
    assert data[0..1] == "\r" && data[2..4] == "\r\r";
    assert Token(data, 0, 1) == "" && Token(data, 2, 4) == "\r" && Token(data, 5, 8) == "\r\r";
    assert LocalFrom(data, 8) == Ok([]);
    var last: seq<string>, both: seq<string> := ["\r\r"], ["\r", "\r\r"];
    assert last + [] == last && ["\r"] + last == both && [] + both == both;
    assert LocalFrom(data, 5) == Ok(last);
    assert LocalFrom(data, 2) == Ok(["\r", "\r\r"]);
    assert LinesFrom(data, 5) == [];
    assert LinesFrom(data, 2) == ["\r\r"];
  }

  /**
   A last line that was cut off before its newline, and that the local reader can return, is what the
   readers differ in: it returns the line, the other drops it. So they agree exactly on terminated content.
   */
  lemma CutOffLineDiffers(data: string)
    requires forall i, n :: IsLine(data, i, n) ==> Plain(data, i, n)
    requires Plain(RestFrom(data, 0), 0, |RestFrom(data, 0)|)
    ensures LocalLines(data) == Ok(ReadLines(data) + One(RestFrom(data, 0)))
    ensures LocalLines(data) == Ok(ReadLines(data)) <==> Terminated(data)
  {
    PlainFromMeans(data, 0);
    RestIsAdded(data, 0);
    TerminatedIffNoRest(data, 0);
    var rest, lines := RestFrom(data, 0), ReadLines(data);
    assert Chomped(rest) == rest;
    assert lines + [] == lines;
    assert rest != "" ==> |lines + One(rest)| == |lines| + 1;
  }

  // ---------- what the readers return, in terms of the bytes ----------

  /** `line` stands between newlines, or the start, and a newline. */
  ghost predicate HoldsLine(data: string, start: int, line: string) {
    exists i, n :: start <= i && IsLine(data, i, n) && data[i..n] == line
  }

  lemma HoldsFirstOrLater(data: string, start: nat, line: string)
    requires start <= |data| && (start == 0 || data[start - 1] == NEWLINE) && NewlineFrom(data, start) < |data|
    ensures var n := NewlineFrom(data, start);
            HoldsLine(data, start, line) <==> data[start..n] == line || HoldsLine(data, n + 1, line)
  {
    var n := NewlineFrom(data, start);
    NewlineIs(data, start, n);
    assert IsLine(data, start, n);
    if HoldsLine(data, start, line) {
      var i, m :| start <= i && IsLine(data, i, m) && data[i..m] == line;
      LineStarts(data, start, i, m);
    }
  }

  /** The reader returns exactly the lines that are terminated and not empty. */
  lemma {:induction false} ReadIff(data: string, start: nat, line: string)
    requires start <= |data| && (start == 0 || data[start - 1] == NEWLINE)
    ensures line in LinesFrom(data, start) <==> line != "" && HoldsLine(data, start, line)
    decreases |data| - start
  {
    hide HoldsLine;
    var n := NewlineFrom(data, start);
    if n == |data| {
      NoLineHeld(data, start, line);
    } else {
      NewlineIs(data, start, n);
      HoldsFirstOrLater(data, start, line);
      ReadIff(data, n + 1, line);
    }
  }

  lemma NoLineHeld(data: string, start: nat, line: string)
    requires start <= |data| && NewlineFrom(data, start) == |data|
    ensures !HoldsLine(data, start, line)
  {
    if i, n :| start <= i && IsLine(data, i, n) {
      LineStarts(data, start, i, n);
    }
  }

  /** `token` is a line less one carriage return at its end. */
  ghost predicate ChompedLine(line: string, token: string) {
    line == token + [RETURN] || (line == token && (token == "" || token[|token| - 1] != RETURN))
  }

  lemma TokenIsChomped(data: string, i: nat, n: nat)
    requires i <= n <= |data|
    ensures ChompedLine(data[i..n], Token(data, i, n))
    ensures forall t :: ChompedLine(data[i..n], t) ==> t == Token(data, i, n)
  {
    var line, token := data[i..n], Token(data, i, n);
    if i < n && data[n - 1] == RETURN {
      assert line == token + [RETURN];
    }
    forall t | ChompedLine(line, t) ensures t == token {
      if line == t + [RETURN] {
        assert line[|line| - 1] == RETURN;
        assert t == line[..|line| - 1];
      }
    }
  }

  /** The local reader succeeds exactly when every line, the unterminated rest included, is shorter than the buffer. */
  lemma {:induction false} LocalOkIff(data: string, start: nat)
    requires start <= |data| && (start == 0 || data[start - 1] == NEWLINE)
    ensures LocalFrom(data, start).Ok? <==>
            && (forall i, n :: start <= i && IsLine(data, i, n) ==> n - i < MAX_TOKEN)
            && |RestFrom(data, start)| < MAX_TOKEN
    decreases |data| - start
  {
    var n := NewlineFrom(data, start);
    NewlineIs(data, start, n);
    if n < |data| {
      LocalOkIff(data, n + 1);
      assert IsLine(data, start, n);
    }
    forall i, m | start <= i && IsLine(data, i, m)
      ensures n < |data| && ((i == start && m == n) || n + 1 <= i)
    {
      LineStarts(data, start, i, m);
    }
  }

  /** The local reader returns exactly the lines, and the rest, less a carriage return each, that are not empty then. */
  lemma {:induction false} LocalReadIff(data: string, start: nat, token: string)
    requires start <= |data| && (start == 0 || data[start - 1] == NEWLINE) && LocalFrom(data, start).Ok?
    ensures token in LocalFrom(data, start).value <==>
            token != "" && ((exists line :: HoldsLine(data, start, line) && ChompedLine(line, token)) ||
                            ChompedLine(RestFrom(data, start), token))
    decreases |data| - start
  {
    hide HoldsLine, ChompedLine, Token;
    var n := NewlineFrom(data, start);
    TokenIsChomped(data, start, n);
    if n == |data| {
      forall line ensures !HoldsLine(data, start, line) {
        NoLineHeld(data, start, line);
      }
      assert data[start..|data|] == data[start..];
      NoTokenAtEnd(data);
      assert start == |data| ==> data[start..] == "";
    } else {
      NewlineIs(data, start, n);
      LocalAt(data, start);
      LocalReadIff(data, n + 1, token);
      forall line ensures HoldsLine(data, start, line) <==> data[start..n] == line || HoldsLine(data, n + 1, line) {
        HoldsFirstOrLater(data, start, line);
      }
    }
  }

  lemma NoTokenAtEnd(data: string)
    ensures Token(data, |data|, |data|) == ""
  {
  }
}
