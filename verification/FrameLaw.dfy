/**
 The layout of a frame as sections 5.2 and 5.3 of RFC 6455 give it, stated on the bytes alone, and
 that the reader and the printer keep to it.
 */
module FrameLaw {
  import opened Bytes
  import opened Chunks
  import opened Frames
  import Options

  /** The number that `count` bytes from `from` on spell, the highest byte first. */
  function BigEndian(b: seq<byte>, from: nat, count: nat): nat
    requires from + count <= |b|
  {
    if count == 0 then 0 else BigEndian(b, from, count - 1) * 256 + b[from + count - 1]
  }

  /** The size of the header that the second byte announces. */
  function HeaderSize(second: byte): nat {
    if second % 128 < 126 then 2 else if second % 128 == 126 then 4 else 10
  }

  /** `b` is one frame that begins with `first` and carries `payload`. */
  ghost predicate IsFrame(b: seq<byte>, first: byte, payload: seq<byte>, masked: bool) {
    && |b| >= 2 && b[0] == first && (b[1] >= 128 <==> masked)
    && var size, code := HeaderSize(b[1]), b[1] % 128;
    && |b| == size + (if masked then 4 else 0) + |payload|
    && |payload| == (if code < 126 then code else if code == 126 then BigEndian(b, 2, 2) else BigEndian(b, 2, 8))
    && if masked then Combined(payload, b[size..size + 4], b[size + 4..]) else b[size..] == payload
  }

  // ---------- lengths ----------

  lemma U16Is(b: seq<byte>, i: nat)
    requires i + 2 <= |b|
    ensures U16(b[i..i + 2]) == b[i] as int * 256 + b[i + 1]
  {
  }

  lemma U32Is(b: seq<byte>, i: nat)
    requires i + 4 <= |b|
    ensures U32(b[i..i + 4]) == ((b[i] as int * 256 + b[i + 1]) * 256 + b[i + 2]) * 256 + b[i + 3]
  {
    assert b[i..i + 4][..2] == b[i..i + 2] && b[i..i + 4][2..] == b[i + 2..i + 4];
    U16Is(b, i);
    U16Is(b, i + 2);
  }

  lemma TwoBytes(b: seq<byte>, i: nat)
    requires i + 2 <= |b|
    ensures BigEndian(b, i, 2) == b[i] as int * 256 + b[i + 1]
  {
    assert BigEndian(b, i, 1) == BigEndian(b, i, 0) * 256 + b[i];
  }

  lemma TwoMoreBytes(b: seq<byte>, i: nat, count: nat)
    requires i + count + 2 <= |b|
    ensures BigEndian(b, i, count + 2) == (BigEndian(b, i, count) * 256 + b[i + count]) * 256 + b[i + count + 1]
  {
    assert BigEndian(b, i, count + 1) == BigEndian(b, i, count) * 256 + b[i + count];
  }

  lemma EightBytes(b: seq<byte>, i: nat)
    requires i + 8 <= |b|
    ensures BigEndian(b, i, 8) == U32(b[i..i + 4]) * TWO_POW_32 + U32(b[i + 4..i + 8])
  {
    hide BigEndian, U32;
    TwoBytes(b, i);
    TwoMoreBytes(b, i, 2);
    TwoMoreBytes(b, i, 4);
    TwoMoreBytes(b, i, 6);
    U32Is(b, i);
    U32Is(b, i + 4);
  }

  /** The header and payload lengths that the reader finds are those the bytes spell. */
  lemma LengthsAre(b: seq<byte>)
    requires |b| >= 2
    ensures var size, code := HeaderSize(b[1]), b[1] % 128;
            if |b| < size then Lengths(b).None?
            else Lengths(b) == Options.Some((size, if code < 126 then code else if code == 126 then BigEndian(b, 2, 2) else BigEndian(b, 2, 8)))
  {
    hide U16, U32, BigEndian;
    if b[1] % 128 == 126 && |b| >= 4 {
      U16Is(b, 2);
      TwoBytes(b, 2);
    } else if b[1] % 128 == 127 && |b| >= 10 {
      EightBytes(b, 2);
    }
  }

  // ---------- the reader ----------

  lemma BigEndianCut(b: seq<byte>, n: nat, from: nat, count: nat)
    requires from + count <= n <= |b|
    ensures BigEndian(b[..n], from, count) == BigEndian(b, from, count)
  {
    if count > 0 {
      BigEndianCut(b, n, from, count - 1);
    }
  }

  /** What the reader returns is laid out as the law says. */
  lemma ReadIsLawful(b: seq<byte>)
    requires HeadFrame(b).Whole?
    ensures var h := HeadFrame(b); h.opcode == b[0] % 16 && IsFrame(b[..h.size], b[0], h.payload, b[1] >= 128)
  {
    var h := HeadFrame(b);
    LengthsAre(b);
    hide Lengths, HeaderSize, Masked, BigEndian, Combined;
    var size, masked := HeaderSize(b[1]), b[1] >= 128;
    var start := size + MaskLength(b);
    var n := |h.payload|;
    if b[1] % 128 == 126 {
      BigEndianCut(b, h.size, 2, 2);
    } else if b[1] % 128 == 127 {
      BigEndianCut(b, h.size, 2, 8);
    }
    SliceOfCut(b, h.size, size, start);
    SliceOfCut(b, h.size, start, h.size);
    assert b[..h.size][start..] == b[..h.size][start..h.size];
    if masked {
      var raw, key := b[start..start + n], b[size..start];
      MaskedIsCombined(raw, key);
      CombinedBack(raw, key, h.payload);
      MaskedIsCombined(h.payload, key);
    }
  }

  /** A lawful frame at the head of a buffer is read as what it carries. */
  lemma LawfulIsRead(b: seq<byte>, size: nat, first: byte, payload: seq<byte>, masked: bool)
    requires size <= |b| && IsFrame(b[..size], first, payload, masked)
    ensures HeadFrame(b) == Whole(first % 16, payload, size)
  {
    var f := b[..size];
    LengthsAre(b);
    hide Lengths, Masked, BigEndian, Combined, HeaderSize;
    var header := HeaderSize(b[1]);
    if b[1] % 128 == 126 {
      BigEndianCut(b, size, 2, 2);
    } else if b[1] % 128 == 127 {
      BigEndianCut(b, size, 2, 8);
    }
    var start := header + MaskLength(b);
    SliceOfCut(b, size, header, start);
    SliceOfCut(b, size, start, size);
    assert f[start..] == f[start..size];
    if masked {
      CombinedBack(payload, b[header..start], b[start..size]);
    }
  }

  /**
   The reader finds a frame at the head of its buffer if and only if one is there by the law, and
   then returns what that frame carries, unmasked, and its size.
   */
  lemma ReadIffLawful(b: seq<byte>, opcode: nat, payload: seq<byte>, size: nat)
    ensures HeadFrame(b) == Whole(opcode, payload, size) <==>
            && 2 <= size <= |b| && opcode == b[0] % 16 && IsFrame(b[..size], b[0], payload, b[1] >= 128)
  {
    if HeadFrame(b) == Whole(opcode, payload, size) {
      ReadIsLawful(b);
    }
    if 2 <= size <= |b| && opcode == b[0] % 16 && IsFrame(b[..size], b[0], payload, b[1] >= 128) {
      LawfulIsRead(b, size, b[0], payload, b[1] >= 128);
    }
  }

  // ---------- the printer ----------

  /** What is sent is a lawful, unmasked text frame with the shortest header for its length. */
  lemma SentIsLawful(payload: seq<byte>)
    requires |payload| < TWO_POW_32
    ensures var b := TextFrame(payload).Encode();
            && IsFrame(b, 0x81, payload, false)
            && |b| == |payload| + if |payload| < 126 then 2 else if |payload| < 65536 then 4 else 10
  {
    var b := TextFrame(payload).Encode();
    assert b + [] == b;
    HeadOfEncoded(TextFrame(payload), []);
    ReadIsLawful(b);
    assert b[..|b|] == b;
  }

  // ---------- round trip ----------

  /** One frame on the wire. */
  datatype Wire = Wire(bytes: seq<byte>, first: byte, payload: seq<byte>, masked: bool)

  ghost predicate Lawful(wires: seq<Wire>) {
    forall k :: 0 <= k < |wires| ==> IsFrame(wires[k].bytes, wires[k].first, wires[k].payload, wires[k].masked)
  }

  function Stream(wires: seq<Wire>): seq<byte> {
    if wires == [] then [] else wires[0].bytes + Stream(wires[1..])
  }

  /** The payloads of the text frames, whose opcode is 1, before the first close frame, whose opcode is 8. */
  function TextPayloads(wires: seq<Wire>): seq<seq<byte>> {
    if wires == [] || wires[0].first % 16 == 8 then []
    else (if wires[0].first % 16 == 1 then [wires[0].payload] else []) + TextPayloads(wires[1..])
  }

  predicate HasClose(wires: seq<Wire>) {
    exists k :: 0 <= k < |wires| && wires[k].first % 16 == 8
  }

  /** No lawful frame is at the head of `b`. */
  ghost predicate NoFrame(b: seq<byte>) {
    forall n: nat, payload :: !FrameAt(b, n, payload)
  }

  /** The first `n` bytes of `b` are a lawful frame that carries `payload`. */
  ghost predicate FrameAt(b: seq<byte>, n: nat, payload: seq<byte>) {
    2 <= n <= |b| && IsFrame(b[..n], b[0], payload, b[1] >= 128)
  }

  lemma IncompleteIff(b: seq<byte>)
    ensures HeadFrame(b).Incomplete? <==> NoFrame(b)
  {
    hide HeadFrame, IsFrame;
    if HeadFrame(b).Whole? {
      var h := HeadFrame(b);
      ReadIffLawful(b, h.opcode, h.payload, h.size);
      assert FrameAt(b, h.size, h.payload);
    }
    if n: nat, payload :| FrameAt(b, n, payload) {
      ReadIffLawful(b, b[0] % 16, payload, n);
    }
  }

  lemma HasCloseCons(wires: seq<Wire>)
    requires wires != []
    ensures HasClose(wires) <==> wires[0].first % 16 == 8 || HasClose(wires[1..])
  {
    if k :| 0 < k < |wires| && wires[k].first % 16 == 8 {
      assert wires[1..][k - 1].first % 16 == 8;
    }
  }

  /**
   The reader on any bytes: those of lawful frames and then of a tail that does not begin with one. It
   delivers the texts before the first close frame, and keeps the tail unless there was a close frame.
   */
  lemma {:induction false} ParseWires(wires: seq<Wire>, tail: seq<byte>)
    requires Lawful(wires) && NoFrame(tail)
    ensures Parse(Stream(wires) + tail) == Parsed(TextPayloads(wires), if HasClose(wires) then [] else tail, HasClose(wires))
  {
    hide HeadFrame, IsFrame, NoFrame, HasClose;
    if wires == [] {
      IncompleteIff(tail);
      assert Stream(wires) + tail == tail;
      assert !HasClose([]) by { NoClose([]); }
    } else {
      var f, b, t := wires[0], Stream(wires) + tail, Stream(wires[1..]) + tail;
      assert b[..|f.bytes|] == f.bytes && b[|f.bytes|..] == t;
      LawfulIsRead(b, |f.bytes|, f.first, f.payload, f.masked);
      HasCloseCons(wires);
      ParseWires(wires[1..], tail);
    }
  }

  lemma NoClose(wires: seq<Wire>)
    requires forall k :: 0 <= k < |wires| ==> wires[k].first % 16 != 8
    ensures !HasClose(wires)
  {
  }

  lemma NothingRead()
    ensures HeadFrame([]) == Incomplete
  {
  }

  /**
   Lawful frames, masked or not and with any form of length, none of them a close frame, cut into
   chunks anywhere, are delivered as exactly the payloads of the text frames among them.
   */
  lemma LawfulRoundTrip(wires: seq<Wire>, chunks: seq<seq<byte>>)
    requires Lawful(wires) && forall k :: 0 <= k < |wires| ==> wires[k].first % 16 != 8
    requires Concat(chunks) == Stream(wires)
    ensures Feed(Parse, [], chunks) == (TextPayloads(wires), [])
  {
    IncompleteIff([]);
    NothingRead();
    ParseWires(wires, []);
    NoClose(wires);
    assert Stream(wires) + [] == Stream(wires);
    ChunkIndependence(chunks);
  }

  /** A client frame that says "hi" under the key 1, 2, 3, 4. */
  lemma MaskedHi(b: seq<byte>)
    requires b == [0x81, 0x82, 1, 2, 3, 4, 0x69, 0x6b]
    ensures HeadFrame(b) == Whole(1, [0x68, 0x69], 8)
  {
    var raw, key := b[6..8], b[2..6];
    assert Masked(raw, key) == [0x68, 0x69] by { HiByHand(); }
    hide Masked;
    assert Lengths(b) == Options.Some((2, 2)) && MaskLength(b) == 4;
  }

  lemma HiByHand()
    ensures XorByte(0x69, 1) == 0x68 && XorByte(0x6b, 2) == 0x69
  {
    hide Xor;
    XorHalf(0x69, 1);
    XorZero(0x34);
    XorHalf(0x6b, 2);
    XorHalf(0x35, 1);
    XorZero(0x1a);
  }

  lemma {:induction false} XorZero(a: nat)
    ensures Xor(a, 0) == a
  {
    if a > 0 {
      XorZero(a / 2);
    }
  }
}
