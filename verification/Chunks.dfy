/**
 Reading a stream that arrives in chunks: a handler that keeps a leftover buffer
 and runs a parser over leftover plus chunk. What holds of every parser that can
 stop anywhere and resume is proved here once.
 */
module Chunks {

  /** The result of parsing a buffer; `closed` tells that a closing item ended it. */
  datatype Parsed<B, T> = Parsed(texts: seq<T>, rest: seq<B>, closed: bool)
  {
    /** The result of going on after this one. */
    function Then(later: Parsed<B, T>): Parsed<B, T> {
      Parsed(texts + later.texts, later.rest, later.closed)
    }

    lemma ThenAssociative(p: Parsed<B, T>, q: Parsed<B, T>)
      ensures Then(p).Then(q) == Then(p.Then(q))
    {
      assert texts + p.texts + q.texts == texts + (p.texts + q.texts);
    }
  }

  /** Parsing can stop at any point and resume with the leftover, unless it was closed. */
  ghost predicate Incremental<B(!new), T>(parse: seq<B> -> Parsed<B, T>) {
    && (forall a, c ::
          && (parse(a).closed ==> parse(a + c) == parse(a) && parse(a).rest == [])
          && (!parse(a).closed ==> parse(a + c) == parse(a).Then(parse(parse(a).rest + c))))
    && (forall a :: !parse(a).closed ==> parse(parse(a).rest) == Parsed([], parse(a).rest, false))
  }

  function Concat<B>(chunks: seq<seq<B>>): seq<B> {
    if chunks == [] then [] else chunks[0] + Concat(chunks[1..])
  }

  /** Texts delivered and leftover held once the handler has seen all `chunks`. */
  function Feed<B, T>(parse: seq<B> -> Parsed<B, T>, buffer: seq<B>, chunks: seq<seq<B>>): (seq<T>, seq<B>)
    decreases |chunks|
  {
    if chunks == [] then ([], buffer)
    else
      var p := parse(buffer + chunks[0]);
      var later := Feed(parse, p.rest, chunks[1..]);
      (p.texts + later.0, later.1)
  }

  /** The number of chunks consumed when parsing first closes, or all of them. */
  function ChunksToClose<B, T>(parse: seq<B> -> Parsed<B, T>, buffer: seq<B>, chunks: seq<seq<B>>): (k: nat)
    ensures k <= |chunks|
    decreases |chunks|
  {
    if chunks == [] then 0
    else
      var p := parse(buffer + chunks[0]);
      if p.closed then 1 else 1 + ChunksToClose(parse, p.rest, chunks[1..])
  }

  lemma FeedOne<B, T>(parse: seq<B> -> Parsed<B, T>, buffer: seq<B>, chunk: seq<B>)
    ensures Feed(parse, buffer, [chunk]) == (parse(buffer + chunk).texts, parse(buffer + chunk).rest)
  {
    var p := parse(buffer + chunk);
    assert Feed(parse, p.rest, []) == ([], p.rest);
    assert p.texts + [] == p.texts;
  }

  lemma FeedFirst<B, T>(parse: seq<B> -> Parsed<B, T>, buffer: seq<B>, chunks: seq<seq<B>>, k: nat)
    requires 0 < k <= |chunks|
    ensures var p := parse(buffer + chunks[0]);
            var later := Feed(parse, p.rest, chunks[1..][..k - 1]);
            Feed(parse, buffer, chunks[..k]) == (p.texts + later.0, later.1)
  {
    assert chunks[..k][0] == chunks[0];
    assert chunks[..k][1..] == chunks[1..][..k - 1];
  }

  lemma ConcatFirst<B>(buffer: seq<B>, chunks: seq<seq<B>>, k: nat)
    requires 0 < k <= |chunks|
    ensures buffer + Concat(chunks[..k]) == buffer + chunks[0] + Concat(chunks[1..][..k - 1])
  {
    assert chunks[..k][0] == chunks[0];
    assert chunks[..k][1..] == chunks[1..][..k - 1];
  }

  lemma {:induction false} FeedToClose<B(!new), T>(parse: seq<B> -> Parsed<B, T>, buffer: seq<B>, chunks: seq<seq<B>>)
    requires Incremental(parse) && parse(buffer) == Parsed([], buffer, false)
    ensures var p, k := parse(buffer + Concat(chunks)), ChunksToClose(parse, buffer, chunks);
            && Feed(parse, buffer, chunks[..k]) == (p.texts, p.rest)
            && (if p.closed then parse(buffer + Concat(chunks[..k])).closed else k == |chunks|)
    decreases |chunks|
  {
    var k := ChunksToClose(parse, buffer, chunks);
    if chunks == [] {
      assert buffer + Concat(chunks) == buffer;
    } else {
      var a, tail := buffer + chunks[0], chunks[1..];
      assert buffer + Concat(chunks) == a + Concat(tail);
      FeedFirst(parse, buffer, chunks, k);
      ConcatFirst(buffer, chunks, k);
      if parse(a).closed {
        assert parse(a).texts + [] == parse(a).texts;
      } else {
        hide Feed, Concat;
        FeedToClose(parse, parse(a).rest, tail);
        assert parse(a + Concat(tail)) == parse(a).Then(parse(parse(a).rest + Concat(tail)));
        assert parse(a + Concat(tail[..k - 1])) == parse(a).Then(parse(parse(a).rest + Concat(tail[..k - 1])));
      }
    }
  }

  /** Up to the first closing item, and to the end without one, every split gives what one chunk gives. */
  lemma AnySplit<B(!new), T>(parse: seq<B> -> Parsed<B, T>, chunks: seq<seq<B>>)
    requires Incremental(parse) && parse([]) == Parsed([], [], false)
    ensures var s, k := Concat(chunks), ChunksToClose(parse, [], chunks);
            && Feed(parse, [], chunks[..k]) == Feed(parse, [], [s]) == (parse(s).texts, parse(s).rest)
            && (!parse(s).closed ==> Feed(parse, [], chunks) == Feed(parse, [], [s]))
            && (parse(s).closed ==> parse(Concat(chunks[..k])).closed)
  {
    var s, k := Concat(chunks), ChunksToClose(parse, [], chunks);
    FeedToClose(parse, [], chunks);
    FeedOne(parse, [], s);
    assert [] + s == s;
    assert [] + Concat(chunks[..k]) == Concat(chunks[..k]);
    assert chunks[..|chunks|] == chunks;
  }

  lemma {:induction false} FeedSplit<B, T>(parse: seq<B> -> Parsed<B, T>, buffer: seq<B>, chunks: seq<seq<B>>, k: nat)
    requires k <= |chunks|
    ensures var early := Feed(parse, buffer, chunks[..k]);
            var late := Feed(parse, early.1, chunks[k..]);
            Feed(parse, buffer, chunks) == (early.0 + late.0, late.1)
    decreases k
  {
    if k == 0 {
      assert chunks[0..] == chunks;
      assert [] + Feed(parse, buffer, chunks).0 == Feed(parse, buffer, chunks).0;
    } else {
      var p, tail := parse(buffer + chunks[0]), chunks[1..];
      FeedFirst(parse, buffer, chunks, k);
      assert tail[k - 1..] == chunks[k..];
      FeedSplit(parse, p.rest, tail, k - 1);
      var early := Feed(parse, p.rest, tail[..k - 1]);
      var late := Feed(parse, early.1, chunks[k..]);
      assert p.texts + (early.0 + late.0) == p.texts + early.0 + late.0;
    }
  }

  lemma {:induction false} ConcatSplit<B>(chunks: seq<seq<B>>, k: nat)
    requires k <= |chunks|
    ensures Concat(chunks) == Concat(chunks[..k]) + Concat(chunks[k..])
  {
    if k > 0 {
      assert chunks[..k][0] == chunks[0];
      assert chunks[..k][1..] == chunks[1..][..k - 1];
      assert chunks[1..][k - 1..] == chunks[k..];
      ConcatSplit(chunks[1..], k - 1);
    }
  }

  lemma TwoChunks<B, T>(parse: seq<B> -> Parsed<B, T>, a: seq<B>, c: seq<B>)
    ensures Concat([a, c]) == a + c
    ensures parse(a).rest == [] ==> Feed(parse, [], [a, c]).0 == parse(a).texts + parse(c).texts
  {
    var chunks := [a, c];
    assert chunks[1..] == [c];
    assert Concat([c]) == c + Concat([]) == c;
    assert [] + a == a && [] + c == c;
    FeedOne(parse, [], c);
  }

  /** If no suffix of a stream parses to any text, no split of it delivers a text. */
  lemma {:induction false} SilentFeed<B(!new), T>(parse: seq<B> -> Parsed<B, T>, chunks: seq<seq<B>>)
    requires Incremental(parse) && parse([]) == Parsed([], [], false)
    requires forall i :: 0 <= i <= |Concat(chunks)| ==> parse(Concat(chunks)[i..]).texts == []
    ensures Feed(parse, [], chunks).0 == []
    decreases |chunks|, 1
  {
    assert Concat(chunks)[0..] == Concat(chunks);
    AnySplit(parse, chunks);
    if parse(Concat(chunks)).closed {
      SilentAfter(parse, chunks, 0);
    }
  }

  /** If no suffix from `n` on parses to any text, nothing is delivered after the close. */
  lemma SilentAfter<B(!new), T>(parse: seq<B> -> Parsed<B, T>, chunks: seq<seq<B>>, n: nat)
    requires Incremental(parse) && parse([]) == Parsed([], [], false)
    requires parse(Concat(chunks)).closed
    requires n <= |Concat(chunks[..ChunksToClose(parse, [], chunks)])|
    requires forall i :: n <= i <= |Concat(chunks)| ==> parse(Concat(chunks)[i..]).texts == []
    ensures Feed(parse, [], chunks).0 == parse(Concat(chunks)).texts
    decreases |chunks|, 0
  {
    var s, k := Concat(chunks), ChunksToClose(parse, [], chunks);
    AnySplit(parse, chunks);
    ConcatSplit(chunks, k);
    var a, c := Concat(chunks[..k]), Concat(chunks[k..]);
    forall i | 0 <= i <= |c| ensures parse(c[i..]).texts == [] {
      assert c[i..] == s[|a| + i..];
    }
    assert k > 0;
    SilentFeed(parse, chunks[k..]);
    FeedSplit(parse, [], chunks, k);
  }

  // ---------- when the split does not matter ----------

  ghost predicate SameHoweverSplit<B(!new), T>(parse: seq<B> -> Parsed<B, T>, s: seq<B>) {
    forall chunks: seq<seq<B>> :: Concat(chunks) == s ==> Feed(parse, [], chunks).0 == parse(s).texts
  }

  /** The first closing item of `s` ends at `n`. */
  ghost predicate ClosesAt<B, T>(parse: seq<B> -> Parsed<B, T>, s: seq<B>, n: nat) {
    n <= |s| && forall i :: 0 <= i <= |s| ==> (parse(s[..i]).closed <==> n <= i)
  }

  ghost predicate SilentFrom<B, T>(parse: seq<B> -> Parsed<B, T>, s: seq<B>, n: nat) {
    forall i :: n <= i <= |s| ==> parse(s[i..]).texts == []
  }

  lemma TextAfterClose<B(!new), T>(parse: seq<B> -> Parsed<B, T>, a: seq<B>, c: seq<B>)
    requires Incremental(parse) && parse(a).closed && parse(c).texts != []
    ensures !SameHoweverSplit(parse, a + c)
  {
    TwoChunks(parse, a, c);
    assert Feed(parse, [], [a, c]).0 != parse(a + c).texts;
  }

  lemma SilentAfterClose<B(!new), T>(parse: seq<B> -> Parsed<B, T>, s: seq<B>, n: nat, chunks: seq<seq<B>>)
    requires Incremental(parse) && parse([]) == Parsed([], [], false)
    requires ClosesAt(parse, s, n) && SilentFrom(parse, s, n) && Concat(chunks) == s
    ensures Feed(parse, [], chunks).0 == parse(s).texts
  {
    var k := ChunksToClose(parse, [], chunks);
    AnySplit(parse, chunks);
    ConcatSplit(chunks, k);
    var read := Concat(chunks[..k]);
    assert s[..|s|] == s && s[..|read|] == read;
    SilentAfter(parse, chunks, n);
  }

  /**
   A stream without a closing item gives the same texts however it is split; one with a closing
   item does so if and only if no suffix after that item parses to a text.
   */
  lemma IndependentIff<B(!new), T>(parse: seq<B> -> Parsed<B, T>, s: seq<B>, n: nat)
    requires Incremental(parse) && parse([]) == Parsed([], [], false)
    requires parse(s).closed ==> ClosesAt(parse, s, n)
    ensures SameHoweverSplit(parse, s) <==> !parse(s).closed || SilentFrom(parse, s, n)
  {
    if !parse(s).closed {
      forall chunks | Concat(chunks) == s ensures Feed(parse, [], chunks).0 == parse(s).texts {
        AnySplit(parse, chunks);
      }
    } else if SilentFrom(parse, s, n) {
      forall chunks | Concat(chunks) == s ensures Feed(parse, [], chunks).0 == parse(s).texts {
        SilentAfterClose(parse, s, n, chunks);
      }
    } else {
      var i :| n <= i <= |s| && parse(s[i..]).texts != [];
      assert s[..i] + s[i..] == s;
      TextAfterClose(parse, s[..i], s[i..]);
    }
  }
}
