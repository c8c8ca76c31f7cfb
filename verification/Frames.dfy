/**
 The WebSocket log server's frame codec: the incremental reader that carries a
 leftover buffer between socket chunks, and the printer of text frames.
 Section numbers are those of RFC 6455.
 */
module Frames {
  import opened Bytes
  import opened Chunks
  import opened Options

  const TEXT: nat := 1
  const CLOSE: nat := 8
  const TWO_POW_16: nat := 0x1_0000
  const TWO_POW_32: nat := 0x1_0000_0000

  /** What the reader finds at the head of its buffer. */
  datatype Head =
    | Incomplete
    | Whole(opcode: nat, payload: seq<byte>, size: nat)

  function U16(b: seq<byte>): nat
    requires |b| == 2
  {
    var high: int := b[0];
    high * 256 + b[1]
  }

  function U32(b: seq<byte>): nat
    requires |b| == 4
  {
    U16(b[..2]) * TWO_POW_16 + U16(b[2..])
  }

  /** Header length and payload length (section 5.2), or None while header bytes are missing. */
  function Lengths(b: seq<byte>): (r: Option<(nat, nat)>)
    ensures r.Some? ==> 2 <= r.value.0 <= |b|
  {
    if |b| < 2 then None
    else if b[1] % 128 == 126 then
      if |b| < 4 then None else Some((4, U16(b[2..4])))
    else if b[1] % 128 == 127 then
      if |b| < 10 then None else Some((10, U32(b[2..6]) * TWO_POW_32 + U32(b[6..10])))
    else Some((2, b[1] % 128))
  }

  function MaskLength(b: seq<byte>): nat
    requires |b| >= 2
  {
    if b[1] >= 128 then 4 else 0
  }

  /** The payload of `length` bytes after the header and the mask, unmasked if there is a mask. */
  function PayloadAt(b: seq<byte>, header: nat, length: nat): seq<byte>
    requires |b| >= 2 && header + MaskLength(b) + length <= |b|
  {
    var start := header + MaskLength(b);
    var raw := b[start..start + length];
    if b[1] >= 128 then Masked(raw, b[header..start]) else raw
  }

  function HeadFrame(b: seq<byte>): (h: Head)
    ensures h.Whole? ==> 2 <= h.size <= |b|
  {
    match Lengths(b)
    case None => Incomplete
    case Some((header, length)) =>
      var start := header + MaskLength(b);
      if |b| < start + length then Incomplete
      else Whole(b[0] % 16, PayloadAt(b, header, length), start + length)
  }

  function TextOf(h: Head): seq<seq<byte>>
    requires h.Whole?
  {
    if h.opcode == TEXT then [h.payload] else []
  }

  /** The reader as a recursion over frames. */
  function Parse(b: seq<byte>): Parsed<byte, seq<byte>>
    decreases |b|
  {
    var h := HeadFrame(b);
    if h.Incomplete? then Parsed([], b, false)
    else if h.opcode == CLOSE then Parsed([], [], true)
    else Parsed(TextOf(h), [], false).Then(Parse(b[h.size..]))
  }

  // ---------- the imperative code ----------

  method Unmask(payload: array<byte>, mask: seq<byte>)
    requires |mask| == 4
    modifies payload
    ensures payload[..] == Masked(old(payload[..]), mask)
  {
    var i := 0;
    while i < payload.Length
      invariant 0 <= i <= payload.Length
      invariant forall k :: 0 <= k < i ==> payload[k] == XorByte(old(payload[k]), mask[k % 4])
      invariant forall k :: i <= k < payload.Length ==> payload[k] == old(payload[k])
    {
      payload[i] := XorByte(payload[i], mask[i % 4]);
      i := i + 1;
    }
  }

  method CopyOf(b: seq<byte>) returns (a: array<byte>)
    ensures fresh(a) && a[..] == b
  {
    a := new byte[|b|](i requires 0 <= i < |b| => b[i]);
  }

  lemma SliceOfTail(buffer: seq<byte>, offset: nat, i: nat, j: nat)
    requires offset <= |buffer| && i <= j <= |buffer| - offset
    ensures buffer[offset + i..offset + j] == buffer[offset..][i..j]
  {
  }

  /** The header and payload lengths of the frame at `offset`. */
  method ReadLengths(buffer: seq<byte>, offset: nat) returns (lengths: Option<(nat, nat)>)
    requires offset + 2 <= |buffer|
    ensures lengths == Lengths(buffer[offset..])
  {
    hide U16, U32;
    var payloadLength := buffer[offset + 1] % 128;
    if payloadLength == 126 {
      if |buffer| - offset < 4 { return None; }
      SliceOfTail(buffer, offset, 2, 4);
      return Some((4, U16(buffer[offset + 2..offset + 4])));
    } else if payloadLength == 127 {
      if |buffer| - offset < 10 { return None; }
      SliceOfTail(buffer, offset, 2, 6);
      SliceOfTail(buffer, offset, 6, 10);
      var high, low := U32(buffer[offset + 2..offset + 6]), U32(buffer[offset + 6..offset + 10]);
      return Some((10, high * TWO_POW_32 + low));
    }
    return Some((2, payloadLength));
  }

  /** One turn of the reading loop: the header, the length checks and the unmasked copy of the payload. */
  method ReadFrame(buffer: seq<byte>, offset: nat) returns (head: Head)
    requires offset + 2 <= |buffer|
    ensures head == HeadFrame(buffer[offset..])
  {
    hide Lengths, Masked;
    var opcode := buffer[offset] % 16;
    var masked := buffer[offset + 1] >= 128;
    var lengths := ReadLengths(buffer, offset);
    if lengths.None? { return Incomplete; }
    var (headerLength, payloadLength) := lengths.value;
    var maskLength := if masked then 4 else 0;
    var frameLength := headerLength + maskLength + payloadLength;
    if |buffer| - offset < frameLength { return Incomplete; }
    var maskStart := offset + headerLength;
    var payloadStart := maskStart + maskLength;
    SliceOfTail(buffer, offset, headerLength + maskLength, frameLength);
    var payload := CopyOf(buffer[payloadStart..payloadStart + payloadLength]);
    if masked {
      SliceOfTail(buffer, offset, headerLength, headerLength + 4);
      Unmask(payload, buffer[maskStart..maskStart + 4]);
    }
    return Whole(opcode, payload[..], frameLength);
  }

  /** What one turn of the reading loop does to the texts and to what is left to read. */
  lemma ParseStep(texts: seq<seq<byte>>, b: seq<byte>)
    requires HeadFrame(b).Whole?
    ensures var h, before := HeadFrame(b), Parsed(texts, [], false);
            before.Then(Parse(b)) ==
            if h.opcode == CLOSE then Parsed(texts, [], true)
            else Parsed(if h.opcode == TEXT then texts + [h.payload] else texts, [], false).Then(Parse(b[h.size..]))
  {
    var h := HeadFrame(b);
    assert texts + [] == texts;
    if h.opcode != CLOSE {
      Parsed(texts, [], false).ThenAssociative(Parsed(TextOf(h), [], false), Parse(b[h.size..]));
    }
  }

  /** The reading loop; `texts` collects the payloads handed to the callback. */
  method ReadFrames(buffer: seq<byte>) returns (texts: seq<seq<byte>>, rest: seq<byte>)
    ensures texts == Parse(buffer).texts
    ensures rest == Parse(buffer).rest
  {
    texts := [];
    var offset := 0;
    ghost var whole, tail := Parse(buffer), buffer;
    while |buffer| - offset >= 2
      invariant 0 <= offset <= |buffer| && tail == buffer[offset..]
      invariant whole == Parsed(texts, [], false).Then(Parse(tail))
      decreases |buffer| - offset
    {
      var head := ReadFrame(buffer, offset);
      if head.Incomplete? { break; }
      ParseStep(texts, tail);
      if head.opcode == TEXT {
        texts := texts + [head.payload];
      } else if head.opcode == CLOSE {
        return texts, [];
      }
      offset := offset + head.size;
      tail := tail[head.size..];
    }
    assert Parse(tail) == Parsed([], tail, false);
    return texts, buffer[offset..];
  }

  /** The per-socket state of the `data` handler. */
  class Connection {
    var buffer: seq<byte>
    var received: seq<seq<byte>>

    constructor ()
      ensures buffer == [] && received == []
    {
      buffer, received := [], [];
    }

    method OnData(chunk: seq<byte>)
      modifies this
      ensures received == old(received) + Feed(Parse, old(buffer), [chunk]).0
      ensures buffer == Feed(Parse, old(buffer), [chunk]).1
    {
      var texts, rest := ReadFrames(buffer + chunk);
      FeedOne(Parse, buffer, chunk);
      received, buffer := received + texts, rest;
    }
  }

  // ---------- chunk independence ----------

  lemma SliceOfPrefix(a: seq<byte>, c: seq<byte>, i: nat, j: nat)
    requires i <= j <= |a|
    ensures (a + c)[i..j] == a[i..j]
  {
  }

  lemma LengthsStable(a: seq<byte>, c: seq<byte>)
    requires Lengths(a).Some?
    ensures Lengths(a + c) == Lengths(a) && MaskLength(a + c) == MaskLength(a)
  {
    hide U16, U32;
    if a[1] % 128 == 126 {
      SliceOfPrefix(a, c, 2, 4);
    } else if a[1] % 128 == 127 {
      SliceOfPrefix(a, c, 2, 6);
      SliceOfPrefix(a, c, 6, 10);
    }
  }

  lemma PayloadStable(a: seq<byte>, c: seq<byte>, header: nat, length: nat)
    requires |a| >= 2 && header + MaskLength(a) + length <= |a|
    ensures MaskLength(a + c) == MaskLength(a) && PayloadAt(a + c, header, length) == PayloadAt(a, header, length)
  {
    hide Masked;
    var start := header + MaskLength(a);
    SliceOfPrefix(a, c, start, start + length);
    SliceOfPrefix(a, c, header, start);
  }

  lemma HeadStable(a: seq<byte>, c: seq<byte>)
    requires HeadFrame(a).Whole?
    ensures HeadFrame(a + c) == HeadFrame(a)
  {
    hide Lengths, PayloadAt, MaskLength;
    LengthsStable(a, c);
    var (header, length) := Lengths(a).value;
    PayloadStable(a, c, header, length);
  }

  /** Reading can stop at any point and resume with the leftover, unless a close frame was met. */
  lemma {:induction false} ParseAppend(a: seq<byte>, c: seq<byte>)
    ensures Parse(a).closed ==> Parse(a + c) == Parse(a)
    ensures !Parse(a).closed ==> Parse(a + c) == Parse(a).Then(Parse(Parse(a).rest + c))
    decreases |a|
  {
    hide HeadFrame;
    var h := HeadFrame(a);
    if h.Incomplete? {
      assert Parsed([], a, false).Then(Parse(a + c)) == Parse(a + c);
    } else {
      HeadStable(a, c);
      if h.opcode != CLOSE {
        var tail := a[h.size..];
        assert (a + c)[h.size..] == tail + c;
        ParseAppend(tail, c);
        Parsed(TextOf(h), [], false).ThenAssociative(Parse(tail), Parse(Parse(tail).rest + c));
      }
    }
  }

  lemma {:induction false} ParseRest(a: seq<byte>)
    ensures Parse(Parse(a).rest) == Parsed([], Parse(a).rest, false)
    decreases |a|
  {
    hide HeadFrame;
    var h := HeadFrame(a);
    if h.Whole? && h.opcode != CLOSE {
      ParseRest(a[h.size..]);
    }
  }

  lemma {:induction false} ClosedRest(a: seq<byte>)
    requires Parse(a).closed
    ensures Parse(a).rest == []
    decreases |a|
  {
    hide HeadFrame;
    var h := HeadFrame(a);
    if h.opcode != CLOSE {
      ClosedRest(a[h.size..]);
    }
  }

  /** The offset just past the first close frame. */
  function CloseEnd(b: seq<byte>): (n: nat)
    requires Parse(b).closed
    ensures n <= |b|
    decreases |b|
  {
    var h := HeadFrame(b);
    if h.opcode == CLOSE then h.size else h.size + CloseEnd(b[h.size..])
  }

  lemma ClosedStep(a: seq<byte>)
    requires Parse(a).closed
    ensures HeadFrame(a).Whole? && (HeadFrame(a).opcode != CLOSE ==> Parse(a[HeadFrame(a).size..]).closed)
  {
    hide HeadFrame;
  }

  lemma {:induction false} CloseEndPrefix(a: seq<byte>, c: seq<byte>)
    requires Parse(a).closed
    ensures Parse(a + c).closed && CloseEnd(a + c) == CloseEnd(a)
    decreases |a|
  {
    hide HeadFrame, Parse;
    ParseAppend(a, c);
    ClosedStep(a);
    HeadStable(a, c);
    var h := HeadFrame(a);
    if h.opcode != CLOSE {
      assert (a + c)[h.size..] == a[h.size..] + c;
      CloseEndPrefix(a[h.size..], c);
    }
  }

  lemma {:induction false} CutAfterClose(s: seq<byte>, i: nat)
    requires Parse(s).closed && CloseEnd(s) <= i <= |s|
    ensures Parse(s[..i]) == Parse(s)
    decreases |s|
  {
    hide HeadFrame;
    var h := HeadFrame(s);
    HeadCut(s, i);
    if h.opcode != CLOSE {
      assert s[..i][h.size..] == s[h.size..][..i - h.size];
      CutAfterClose(s[h.size..], i - h.size);
    }
  }

  lemma SliceOfCut(s: seq<byte>, n: nat, i: nat, j: nat)
    requires i <= j <= n <= |s|
    ensures s[..n][i..j] == s[i..j]
  {
  }

  lemma LengthsCut(s: seq<byte>, n: nat)
    requires 2 <= n <= |s| && Lengths(s).Some? && Lengths(s).value.0 <= n
    ensures Lengths(s[..n]) == Lengths(s) && MaskLength(s[..n]) == MaskLength(s)
  {
    hide U16, U32;
    if s[1] % 128 == 126 {
      SliceOfCut(s, n, 2, 4);
    } else if s[1] % 128 == 127 {
      SliceOfCut(s, n, 2, 6);
      SliceOfCut(s, n, 6, 10);
    }
  }

  lemma PayloadCut(s: seq<byte>, n: nat, header: nat, length: nat)
    requires 2 <= n <= |s| && header + MaskLength(s) + length <= n
    ensures MaskLength(s[..n]) == MaskLength(s) && PayloadAt(s[..n], header, length) == PayloadAt(s, header, length)
  {
    hide Masked;
    var start := header + MaskLength(s);
    SliceOfCut(s, n, start, start + length);
    SliceOfCut(s, n, header, start);
  }

  lemma HeadCut(s: seq<byte>, n: nat)
    requires n <= |s| && HeadFrame(s).Whole? && HeadFrame(s).size <= n
    ensures HeadFrame(s[..n]) == HeadFrame(s)
  {
    hide Lengths, PayloadAt, MaskLength;
    LengthsCut(s, n);
    var (header, length) := Lengths(s).value;
    PayloadCut(s, n, header, length);
  }

  lemma ReaderIsIncremental()
    ensures Incremental(Parse)
  {
    forall a: seq<byte>, c: seq<byte>
      ensures Parse(a).closed ==> Parse(a + c) == Parse(a) && Parse(a).rest == []
      ensures !Parse(a).closed ==> Parse(a + c) == Parse(a).Then(Parse(Parse(a).rest + c))
    {
      ParseAppend(a, c);
      if Parse(a).closed {
        ClosedRest(a);
      }
    }
    forall a: seq<byte>
      ensures !Parse(a).closed ==> Parse(Parse(a).rest) == Parsed([], Parse(a).rest, false)
    {
      ParseRest(a);
    }
  }

  /**
   For every byte stream and every split of it into chunks: when the first close frame
   completes, or at the end of a stream without one, the handler has delivered exactly the
   texts and holds exactly the leftover that it would have had the stream come in one chunk.
   */
  lemma ChunkIndependence(chunks: seq<seq<byte>>)
    ensures var s, k := Concat(chunks), ChunksToClose(Parse, [], chunks);
            && Feed(Parse, [], chunks[..k]) == Feed(Parse, [], [s]) == (Parse(s).texts, Parse(s).rest)
            && (!Parse(s).closed ==> Feed(Parse, [], chunks) == Feed(Parse, [], [s]))
  {
    ReaderIsIncremental();
    assert Parse([]) == Parsed([], [], false);
    AnySplit(Parse, chunks);
  }

  lemma CloseEndIs(s: seq<byte>)
    requires Parse(s).closed
    ensures ClosesAt(Parse, s, CloseEnd(s))
  {
    hide Parse, CloseEnd;
    var n := CloseEnd(s);
    forall i | 0 <= i <= |s| ensures Parse(s[..i]).closed <==> n <= i {
      assert s[..i] + s[i..] == s;
      if n <= i {
        CutAfterClose(s, i);
      } else if Parse(s[..i]).closed {
        CloseEndPrefix(s[..i], s[i..]);
      }
    }
  }

  /**
   The handler drops the rest of the chunk that holds a close frame but goes on reading
   later chunks. Hence the texts of a whole stream are independent of the split exactly
   when it has no complete close frame, or nothing after that frame reads as a text.
   */
  lemma SplitIndependentIff(s: seq<byte>)
    ensures SameHoweverSplit(Parse, s) <==> !Parse(s).closed || SilentFrom(Parse, s, CloseEnd(s))
  {
    ReaderIsIncremental();
    assert Parse([]) == Parsed([], [], false);
    hide *;
    if Parse(s).closed {
      CloseEndIs(s);
      IndependentIff(Parse, s, CloseEnd(s));
    } else {
      IndependentIff(Parse, s, 0);
    }
  }

  /** An empty close frame and an empty text frame: the text is read only if the stream is split between them. */
  lemma CloseThenTextDepends()
    ensures !SameHoweverSplit(Parse, [0x88, 0x00, 0x81, 0x00])
  {
    var s: seq<byte> := [0x88, 0x00, 0x81, 0x00];
    var tail: seq<byte> := [0x81, 0x00];
    assert HeadFrame(s) == Whole(CLOSE, s[2..2], 2);
    assert Parse(s).closed && CloseEnd(s) == 2;
    assert s[2..] == tail;
    assert HeadFrame(tail) == Whole(TEXT, tail[2..2], 2);
    assert Parse(s[2..]).texts != [];
    SplitIndependentIff(s);
  }

  // ---------- round trip ----------

  function Bytes16(n: nat): seq<byte>
    requires n < TWO_POW_16
  {
    [n / 256, n % 256]
  }

  function Bytes32(n: nat): seq<byte>
    requires n < TWO_POW_32
  {
    Bytes16(n / TWO_POW_16) + Bytes16(n % TWO_POW_16)
  }

  /** A frame as RFC 6455 section 5.2 lays it out, the length in its shortest form. */
  datatype Frame = Frame(first: byte, payload: seq<byte>, key: Option<seq<byte>>)
  {
    predicate Valid() {
      |payload| < TWO_POW_32 && (key.Some? ==> |key.value| == 4)
    }

    function MaskBit(): nat {
      if key.Some? then 128 else 0
    }

    function Header(): seq<byte>
      requires Valid()
    {
      if |payload| < 126 then [first, MaskBit() + |payload|]
      else if |payload| < TWO_POW_16 then [first, MaskBit() + 126] + Bytes16(|payload|)
      else [first, MaskBit() + 127] + Bytes32(0) + Bytes32(|payload|)
    }

    function Encode(): seq<byte>
      requires Valid()
    {
      if key.Some? then Header() + key.value + Masked(payload, key.value)
      else Header() + payload
    }
  }

  lemma HeadOfEncoded(f: Frame, t: seq<byte>)
    requires f.Valid()
    ensures HeadFrame(f.Encode() + t) == Whole(f.first % 16, f.payload, |f.Encode()|)
  {
    var b, n, header := f.Encode() + t, |f.payload|, |f.Header()|;
    assert b[..header] == f.Header();
    LengthsOfHeader(f, b);
    var start := header + MaskLength(b);
    assert |f.Encode()| == start + n;
    if f.key.Some? {
      assert b[header..start] == f.key.value;
      assert b[start..start + n] == Masked(f.payload, f.key.value);
      MaskInvolution(f.payload, f.key.value);
    } else {
      assert b[start..start + n] == f.payload;
    }
  }

  lemma LengthsOfHeader(f: Frame, b: seq<byte>)
    requires f.Valid() && |f.Header()| <= |b| && b[..|f.Header()|] == f.Header()
    ensures Lengths(b) == Some((|f.Header()|, |f.payload|))
    ensures b[0] == f.first && (b[1] >= 128 <==> f.key.Some?)
  {
    var h, n := f.Header(), |f.payload|;
    assert forall i :: 0 <= i < |h| ==> b[i] == b[..|h|][i] == h[i];
    if 126 <= n < TWO_POW_16 {
      assert b[2..4] == Bytes16(n);
    } else if n >= TWO_POW_16 {
      assert b[2..6] == Bytes32(0);
      assert b[6..10] == Bytes32(n);
      U32RoundTrip(0);
      U32RoundTrip(n);
    }
  }

  lemma U32RoundTrip(n: nat)
    requires n < TWO_POW_32
    ensures U32(Bytes32(n)) == n
  {
    var b := Bytes32(n);
    assert b[..2] == Bytes16(n / TWO_POW_16);
    assert b[2..] == Bytes16(n % TWO_POW_16);
  }

  function EncodeAll(frames: seq<Frame>): seq<byte>
    requires forall f :: f in frames ==> f.Valid()
  {
    if frames == [] then [] else frames[0].Encode() + EncodeAll(frames[1..])
  }

  /** The text payloads of the frames that come before the first close frame. */
  function Texts(frames: seq<Frame>): seq<seq<byte>> {
    if frames == [] || frames[0].first % 16 == CLOSE then []
    else (if frames[0].first % 16 == TEXT then [frames[0].payload] else []) + Texts(frames[1..])
  }

  lemma {:induction false} ParseEncoded(frames: seq<Frame>)
    requires forall f :: f in frames ==> f.Valid()
    ensures Parse(EncodeAll(frames)) ==
            Parsed(Texts(frames), [], exists i :: 0 <= i < |frames| && frames[i].first % 16 == CLOSE)
  {
    if frames != [] {
      var f := frames[0];
      var b, t := EncodeAll(frames), EncodeAll(frames[1..]);
      HeadOfEncoded(f, t);
      assert b[|f.Encode()|..] == t;
      ParseEncoded(frames[1..]);
      assert forall i :: 0 <= i < |frames| - 1 ==> frames[1..][i] == frames[i + 1];
      if exists i :: 0 <= i < |frames| && frames[i].first % 16 == CLOSE {
        var i :| 0 <= i < |frames| && frames[i].first % 16 == CLOSE;
        if i > 0 {
          assert frames[1..][i - 1].first % 16 == CLOSE;
        }
      }
    }
  }

  /**
   Any sequence of frames, masked or not, encoded, concatenated and cut into chunks
   anywhere, is delivered as exactly its text payloads, with nothing left over.
   */
  lemma RoundTrip(frames: seq<Frame>, chunks: seq<seq<byte>>)
    requires forall f :: f in frames ==> f.Valid() && f.first % 16 != CLOSE
    requires Concat(chunks) == EncodeAll(frames)
    ensures Feed(Parse, [], chunks) == (Texts(frames), [])
  {
    ParseEncoded(frames);
    assert forall i :: 0 <= i < |frames| ==> frames[i] in frames;
    ChunkIndependence(chunks);
  }

  function TextFrame(payload: seq<byte>): Frame {
    Frame(0x81, payload, None)
  }

  datatype Sent = Written(bytes: seq<byte>) | RangeError

  /** The printer; writing a length of 2^32 or more as 32 bits is the source's range error. */
  method SendText(payload: seq<byte>) returns (r: Sent)
    ensures r == if |payload| < TWO_POW_32 then Written(TextFrame(payload).Encode()) else RangeError
  {
    var header: array<byte>;
    if |payload| < 126 {
      header := new byte[2];
      header[0], header[1] := 0x81, |payload|;
    } else if |payload| < 65536 {
      header := new byte[4];
      header[0], header[1] := 0x81, 126;
      WriteBE(header, 2, Bytes16(|payload|));
    } else {
      if |payload| >= TWO_POW_32 {
        return RangeError;
      }
      header := new byte[10];
      header[0], header[1] := 0x81, 127;
      WriteBE(header, 2, Bytes32(0));
      WriteBE(header, 6, Bytes32(|payload|));
    }
    assert header[..] == TextFrame(payload).Header();
    return Written(header[..] + payload);
  }

  method WriteBE(header: array<byte>, at: nat, bytes: seq<byte>)
    requires at + |bytes| <= header.Length
    modifies header
    ensures header[..] == old(header[..at]) + bytes + old(header[at + |bytes|..])
  {
    for i := 0 to |bytes|
      invariant forall k :: 0 <= k < at ==> header[k] == old(header[k])
      invariant forall k :: 0 <= k < i ==> header[at + k] == bytes[k]
      invariant forall k :: at + i <= k < header.Length ==> header[k] == old(header[k])
    {
      header[at + i] := bytes[i];
    }
  }

  /** The frames that sending each payload in turn writes. */
  function TextFrames(payloads: seq<seq<byte>>): (r: seq<Frame>)
    requires forall p :: p in payloads ==> |p| < TWO_POW_32
    ensures forall f :: f in r ==> f.Valid() && f.first == 0x81
  {
    if payloads == [] then [] else [TextFrame(payloads[0])] + TextFrames(payloads[1..])
  }

  lemma {:induction false} TextsOfTextFrames(payloads: seq<seq<byte>>)
    requires forall p :: p in payloads ==> |p| < TWO_POW_32
    ensures Texts(TextFrames(payloads)) == payloads
  {
    if payloads != [] {
      var frames := TextFrames(payloads);
      assert frames[1..] == TextFrames(payloads[1..]);
      TextsOfTextFrames(payloads[1..]);
    }
  }

  /** Reading what `SendText` wrote, in whatever chunks it arrives, gives the payloads back. */
  lemma SendTextRoundTrip(payloads: seq<seq<byte>>, chunks: seq<seq<byte>>)
    requires forall p :: p in payloads ==> |p| < TWO_POW_32
    requires Concat(chunks) == EncodeAll(TextFrames(payloads))
    ensures Feed(Parse, [], chunks) == (payloads, [])
  {
    RoundTrip(TextFrames(payloads), chunks);
    TextsOfTextFrames(payloads);
  }
}
