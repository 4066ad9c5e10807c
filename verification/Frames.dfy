/**
 The stream protocol: `Message.pack` and the reassembly of length-prefixed frames from a deque of
 received chunks (`MitogenProtocol.on_receive`, `_receive_one`).
 */
module Frames {
  import opened Seqs

  type Byte = b: int | 0 <= b < 256

  type U32 = n: int | 0 <= n < 0x1_0000_0000

  datatype ReplyTo = NoReply | ReplyTo(handle: U32)

  datatype Message = Message(dst: U32, src: U32, auth: U32, handle: U32, replyTo: ReplyTo, data: seq<Byte>)

  /** A message whose length fits the header; `struct.pack` refuses any other. */
  type Packable = m: Message | |m.data| < 0x1_0000_0000 witness Message(0, 0, 0, 0, NoReply, [])

  const HEADER_LEN := 26

  const HEADER_MAGIC := 0x4d49

  /** `struct` format `L`, big-endian. */
  function PackU32(n: U32): (r: seq<Byte>)
    ensures |r| == 4
  {
    [n / 0x100_0000, n / 0x1_0000 % 0x100, n / 0x100 % 0x100, n % 0x100]
  }

  function UnpackU32(b: seq<Byte>): U32
    requires |b| == 4
  {
    var (b0: int, b1: int, b2: int, b3: int) := (b[0], b[1], b[2], b[3]);
    ((b0 * 0x100 + b1) * 0x100 + b2) * 0x100 + b3
  }

  /** `struct` format `h`: signed, big-endian. */
  function UnpackI16(b: seq<Byte>): (n: int)
    requires |b| == 2
    ensures -0x8000 <= n < 0x8000 && (n - (b[0] as int * 0x100 + b[1])) % 0x1_0000 == 0
  {
    var (b0: int, b1: int) := (b[0], b[1]);
    var u := b0 * 0x100 + b1;
    if u < 0x8000 then u else u - 0x1_0000
  }

  lemma U32RoundTrip(n: U32)
    ensures UnpackU32(PackU32(n)) == n
  {
    var n1, n2 := n / 0x100, n / 0x1_0000;
    assert n == n1 * 0x100 + n % 0x100;
    assert n1 == n2 * 0x100 + n1 % 0x100;
    assert n2 == n2 / 0x100 * 0x100 + n2 % 0x100;
    assert n2 / 0x100 == n / 0x100_0000;
  }

  /** What a receiver sees of a message: an absent reply handle travels as 0. */
  function OnWire(m: Message): Message
  {
    m.(replyTo := ReplyTo(if m.replyTo.NoReply? then 0 else m.replyTo.handle))
  }

  function Header(m: Packable): (r: seq<Byte>)
    ensures |r| == HEADER_LEN
  {
    [0x4d, 0x49] + PackU32(m.dst) + PackU32(m.src) + PackU32(m.auth) + PackU32(m.handle)
    + PackU32(OnWire(m).replyTo.handle) + PackU32(|m.data|)
  }

  function Pack(m: Packable): (r: seq<Byte>)
    ensures |r| == HEADER_LEN + |m.data|
  {
    Header(m) + m.data
  }

  // ---------------------------------------------------------------- reference parser

  /** What the bytes buffered so far start with. */
  datatype Frame = Incomplete | Corrupt | Oversized | Complete(msg: Message, len: nat)

  datatype Status = Open | Dropped(why: Frame)

  function MessageOf(header: seq<Byte>, data: seq<Byte>): Message
    requires |header| == HEADER_LEN
  {
    Message(UnpackU32(header[2..6]), UnpackU32(header[6..10]), UnpackU32(header[10..14]),
            UnpackU32(header[14..18]), ReplyTo(UnpackU32(header[18..22])), data)
  }

  function FirstFrame(buf: seq<Byte>, max: nat): (f: Frame)
    ensures f.Complete? ==> HEADER_LEN <= f.len <= |buf|
  {
    if |buf| < HEADER_LEN then Incomplete
    else if UnpackI16(buf[..2]) != HEADER_MAGIC then Corrupt
    else
      var len := UnpackU32(buf[22..26]);
      if len > max then Oversized
      else if |buf| < len + HEADER_LEN then Incomplete
      else Complete(MessageOf(buf[..HEADER_LEN], buf[HEADER_LEN..HEADER_LEN + len]), HEADER_LEN + len)
  }

  /** The messages a byte string holds, what is left of it, and whether the stream was dropped. */
  datatype Parsed = Parsed(msgs: seq<Message>, rest: seq<Byte>, status: Status)

  function Parse(buf: seq<Byte>, max: nat): Parsed
    decreases |buf|
  {
    var f := FirstFrame(buf, max);
    if f.Incomplete? then Parsed([], buf, Open)
    else if !f.Complete? then Parsed([], buf, Dropped(f))
    else
      var p := Parse(buf[f.len..], max);
      p.(msgs := [f.msg] + p.msgs)
  }

  lemma FirstFrameOfPrefix(a: seq<Byte>, b: seq<Byte>, max: nat)
    ensures !FirstFrame(a, max).Incomplete? ==> FirstFrame(a + b, max) == FirstFrame(a, max)
  {
    if !FirstFrame(a, max).Incomplete? {
      assert (a + b)[..2] == a[..2] && (a + b)[22..26] == a[22..26];
      assert (a + b)[..HEADER_LEN] == a[..HEADER_LEN];
      var f := FirstFrame(a, max);
      if f.Complete? {
        assert (a + b)[HEADER_LEN..f.len] == a[HEADER_LEN..f.len];
      }
    }
  }

  /** The result of parsing some bytes, and then `more` bytes that follow them. */
  function Resume(p: Parsed, more: seq<Byte>, max: nat): Parsed
  {
    if p.status.Open? then Prepend(p.msgs, Parse(p.rest + more, max)) else p.(rest := p.rest + more)
  }

  function Prepend(ms: seq<Message>, p: Parsed): Parsed
  {
    p.(msgs := ms + p.msgs)
  }

  /** What the first frame does to the result. */
  lemma ParseOne(buf: seq<Byte>, max: nat, done: seq<Message>)
    ensures var f := FirstFrame(buf, max);
            Prepend(done, Parse(buf, max)) ==
              if f.Complete? then Prepend(done + [f.msg], Parse(buf[f.len..], max))
              else Parsed(done, buf, if f.Incomplete? then Open else Dropped(f))
    ensures buf[0..] == buf && Prepend(done, Parsed([], buf, Open)) == Parsed(done, buf, Open)
    ensures forall s :: Prepend(done, Parsed([], buf, s)) == Parsed(done, buf, s)
  {
    var f := FirstFrame(buf, max);
    assert forall s :: Prepend(done, Parsed([], buf, s)).msgs == done;
    if f.Complete? {
      var p := Parse(buf[f.len..], max);
      assert done + ([f.msg] + p.msgs) == done + [f.msg] + p.msgs;
    }
  }

  /** Parsing can stop after `a` and go on later from what `a` left over. */
  lemma {:induction false} ParseAppend(a: seq<Byte>, b: seq<Byte>, max: nat)
    ensures Parse(a + b, max) == Resume(Parse(a, max), b, max)
    decreases |a|
  {
    hide FirstFrame;
    FirstFrameOfPrefix(a, b, max);
    var f := FirstFrame(a, max);
    if f.Complete? {
      ParseAppend(a[f.len..], b, max);
      assert (a + b)[f.len..] == a[f.len..] + b;
    }
  }

  lemma ParseRest(a: seq<Byte>, max: nat)
    ensures var p := Parse(a, max);
            (p.status.Open? ==> FirstFrame(p.rest, max).Incomplete?) && |p.rest| <= |a|
    decreases |a|
  {
    var f := FirstFrame(a, max);
    if f.Complete? {
      ParseRest(a[f.len..], max);
    }
  }

  /** A buffer that holds every byte of the first frame holds a complete frame. */
  lemma CompleteInPrefix(a: seq<Byte>, b: seq<Byte>, max: nat)
    requires FirstFrame(a + b, max).Complete? && |a| >= FirstFrame(a + b, max).len
    ensures FirstFrame(a, max).Complete?
  {
    assert (a + b)[..2] == a[..2] && (a + b)[22..26] == a[22..26];
  }

  // ---------------------------------------------------------------- packing many messages

  predicate Sendable(ms: seq<Packable>, max: nat)
  {
    forall k :: 0 <= k < |ms| ==> |ms[k].data| <= max
  }

  function PackAll(ms: seq<Packable>): seq<Byte>
  {
    if ms == [] then [] else Pack(ms[0]) + PackAll(ms[1..])
  }

  function WireAll(ms: seq<Packable>): (r: seq<Message>)
    ensures |r| == |ms| && forall k :: 0 <= k < |r| ==> r[k] == OnWire(ms[k])
  {
    seq(|ms|, k requires 0 <= k < |ms| => OnWire(ms[k]))
  }

  lemma FirstFrameOfPacked(m: Packable, tail: seq<Byte>, max: nat)
    requires |m.data| <= max
    ensures FirstFrame(Pack(m) + tail, max) == Complete(OnWire(m), |Pack(m)|)
  {
    var h, buf := Header(m), Pack(m) + tail;
    assert buf[..HEADER_LEN] == h;
    assert buf[..2] == [0x4d, 0x49];
    assert h[2..6] == PackU32(m.dst) && h[6..10] == PackU32(m.src) && h[10..14] == PackU32(m.auth);
    assert h[14..18] == PackU32(m.handle) && h[18..22] == PackU32(OnWire(m).replyTo.handle);
    assert buf[22..26] == PackU32(|m.data|);
    U32RoundTrip(m.dst);
    U32RoundTrip(m.src);
    U32RoundTrip(m.auth);
    U32RoundTrip(m.handle);
    U32RoundTrip(OnWire(m).replyTo.handle);
    U32RoundTrip(|m.data|);
    assert buf[HEADER_LEN..HEADER_LEN + |m.data|] == m.data;
  }

  lemma ParseOnePacked(m: Packable, tail: seq<Byte>, max: nat)
    requires |m.data| <= max
    ensures Parse(Pack(m) + tail, max) == Prepend([OnWire(m)], Parse(tail, max))
  {
    hide FirstFrame, Pack, OnWire;
    FirstFrameOfPacked(m, tail, max);
    assert (Pack(m) + tail)[|Pack(m)|..] == tail;
  }

  lemma {:induction false} ParsePacked(ms: seq<Packable>, tail: seq<Byte>, max: nat)
    requires Sendable(ms, max)
    ensures Parse(PackAll(ms) + tail, max) == Prepend(WireAll(ms), Parse(tail, max))
    decreases |ms|
  {
    hide FirstFrame, Parse, Pack, OnWire;
    if ms == [] {
      assert PackAll(ms) + tail == tail;
      assert WireAll(ms) + Parse(tail, max).msgs == Parse(tail, max).msgs;
    } else {
      var rest := PackAll(ms[1..]) + tail;
      assert PackAll(ms) + tail == Pack(ms[0]) + rest;
      ParseOnePacked(ms[0], rest, max);
      ParsePacked(ms[1..], tail, max);
      assert WireAll(ms) == [OnWire(ms[0])] + WireAll(ms[1..]);
    }
  }

  lemma {:induction false} PackAllSnoc(ms: seq<Packable>, m: Packable)
    ensures PackAll(ms + [m]) == PackAll(ms) + Pack(m)
    decreases |ms|
  {
    hide Pack;
    if ms == [] {
      assert ms + [m] == [m];
      assert PackAll([m]) == Pack(m) + PackAll([]);
    } else {
      PackAllSnoc(ms[1..], m);
      assert (ms + [m])[1..] == ms[1..] + [m];
    }
  }

  /** Any number of leading bytes of packed messages parse to leading messages, never to an error. */
  lemma PrefixParsesToPrefix(ms: seq<Packable>, got: seq<Byte>, max: nat)
    requires Sendable(ms, max) && got <= PackAll(ms)
    ensures Parse(got, max).status.Open? && Parse(got, max).msgs <= WireAll(ms)
    ensures got == PackAll(ms) ==> Parse(got, max) == Parsed(WireAll(ms), [], Open)
  {
    var more := PackAll(ms)[|got|..];
    assert got + more == PackAll(ms) == PackAll(ms) + [];
    ParsePacked(ms, [], max);
    assert Parse([], max) == Parsed([], [], Open);
    assert WireAll(ms) + [] == WireAll(ms);
    ParseAppend(got, more, max);
  }

  // ---------------------------------------------------------------- nothing but packed messages is routed

  /** The number that bytes stand for, the most significant first. */
  function BigEndian(b: seq<Byte>): nat
  {
    if b == [] then 0 else 0x100 * BigEndian(b[..|b| - 1]) + b[|b| - 1]
  }

  lemma U32IsBigEndian(b: seq<Byte>)
    requires |b| == 4
    ensures UnpackU32(b) == BigEndian(b) && PackU32(UnpackU32(b)) == b
  {
    var (b0: int, b1: int, b2: int, b3: int) := (b[0], b[1], b[2], b[3]);
    assert b[..3][..2] == b[..2] && b[..2][..1] == b[..1] && b[..1][..0] == [];
    assert BigEndian(b[..1]) == b0;
    assert BigEndian(b[..2]) == b0 * 0x100 + b1;
    assert BigEndian(b[..3]) == (b0 * 0x100 + b1) * 0x100 + b2;
    DigitsOf(b0, b1, b2, b3);
  }

  lemma DigitsOf(b0: int, b1: int, b2: int, b3: int)
    requires 0 <= b0 < 0x100 && 0 <= b1 < 0x100 && 0 <= b2 < 0x100 && 0 <= b3 < 0x100
    ensures var n := ((b0 * 0x100 + b1) * 0x100 + b2) * 0x100 + b3;
            n / 0x100_0000 == b0 && n / 0x1_0000 % 0x100 == b1 && n / 0x100 % 0x100 == b2 && n % 0x100 == b3
  {
    var n1 := (b0 * 0x100 + b1) * 0x100 + b2;
    var n2 := b0 * 0x100 + b1;
    var n := n1 * 0x100 + b3;
    assert n / 0x100 == n1 && n1 / 0x100 == n2 && n2 / 0x100 == b0;
    assert n / 0x1_0000 == n2 && n / 0x100_0000 == b0;
  }

  /** Where the fields of a message are: the signature, six numbers, the data. */
  lemma PackedLayout(m: Packable)
    ensures var p := Pack(m);
            && p[..2] == [0x4d, 0x49] && p[26..] == m.data
            && BigEndian(p[2..6]) == m.dst && BigEndian(p[6..10]) == m.src && BigEndian(p[10..14]) == m.auth
            && BigEndian(p[14..18]) == m.handle
            && BigEndian(p[18..22]) == (if m.replyTo.NoReply? then 0 else m.replyTo.handle)
            && BigEndian(p[22..26]) == |m.data|
  {
    var p := Pack(m);
    assert p[2..6] == PackU32(m.dst) && p[6..10] == PackU32(m.src) && p[10..14] == PackU32(m.auth);
    assert p[14..18] == PackU32(m.handle) && p[18..22] == PackU32(OnWire(m).replyTo.handle);
    assert p[22..26] == PackU32(|m.data|);
    FieldIs(m.dst);
    FieldIs(m.src);
    FieldIs(m.auth);
    FieldIs(m.handle);
    FieldIs(OnWire(m).replyTo.handle);
    FieldIs(|m.data|);
  }

  lemma FieldIs(n: U32)
    ensures BigEndian(PackU32(n)) == n
  {
    U32IsBigEndian(PackU32(n));
    U32RoundTrip(n);
  }

  /** A header is there that starts with the signature. */
  predicate Signed(buf: seq<Byte>)
  {
    |buf| >= 26 && buf[..2] == [0x4d, 0x49]
  }

  /** A frame is found exactly where the bytes start with a packed message that is not too long. */
  lemma FirstFrameIsPacked(buf: seq<Byte>, max: nat) returns (m: Packable)
    ensures var f := FirstFrame(buf, max);
            && (f.Corrupt? <==> |buf| >= 26 && !Signed(buf))
            && (f.Oversized? <==> Signed(buf) && BigEndian(buf[22..26]) > max)
            && (f.Complete? ==> |m.data| <= max && f == Complete(OnWire(m), |Pack(m)|) && buf == Pack(m) + buf[f.len..])
            && (f.Incomplete? ==> |buf| < 26 || (Signed(buf) && |buf| < 26 + BigEndian(buf[22..26])))
  {
    var f := FirstFrame(buf, max);
    m := Message(0, 0, 0, 0, NoReply, []);
    if |buf| >= HEADER_LEN {
      assert buf[..2] == [buf[0], buf[1]];
      U32IsBigEndian(buf[22..26]);
      if f.Complete? {
        m := f.msg;
        HeaderIs(buf[..HEADER_LEN], m);
        assert buf == buf[..HEADER_LEN] + m.data + buf[f.len..];
      }
    }
  }

  lemma HeaderIs(h: seq<Byte>, m: Packable)
    requires |h| == HEADER_LEN && h[0] == 0x4d && h[1] == 0x49
    requires UnpackU32(h[22..26]) == |m.data| && m == MessageOf(h, m.data)
    ensures Header(m) == h
  {
    U32IsBigEndian(h[2..6]);
    U32IsBigEndian(h[6..10]);
    U32IsBigEndian(h[10..14]);
    U32IsBigEndian(h[14..18]);
    U32IsBigEndian(h[18..22]);
    U32IsBigEndian(h[22..26]);
    assert h == [h[0], h[1]] + h[2..6] + h[6..10] + h[10..14] + h[14..18] + h[18..22] + h[22..26];
  }

  /**
   Whatever is routed was packed: any bytes are messages `ms` within the limit, and a rest that starts with no
   such message. The stream is dropped as corrupt exactly if the rest holds a header without the signature, and
   as oversized exactly if it holds one with it that announces too much data.
   */
  lemma RoutedWasPacked(buf: seq<Byte>, max: nat) returns (ms: seq<Packable>)
    ensures var p := Parse(buf, max); var rest := p.rest;
            && Sendable(ms, max) && buf == PackAll(ms) + rest && p.msgs == WireAll(ms)
            && (p.status == Dropped(Corrupt) <==> |rest| >= 26 && !Signed(rest))
            && (p.status == Dropped(Oversized) <==> Signed(rest) && BigEndian(rest[22..26]) > max)
            && (p.status == Open ==> |rest| < 26 || (Signed(rest) && |rest| < 26 + BigEndian(rest[22..26])))
            && p.status in {Open, Dropped(Corrupt), Dropped(Oversized)}
  {
    hide Parse, Signed, BigEndian, PackAll;
    ms := SplitOff(buf, max);
    DroppedByRest(buf, max);
  }

  lemma {:induction false} SplitOff(buf: seq<Byte>, max: nat) returns (ms: seq<Packable>)
    ensures Sendable(ms, max) && Parse(buf, max).msgs == WireAll(ms) && buf == PackAll(ms) + Parse(buf, max).rest
    decreases |buf|
  {
    hide FirstFrame, Parse, Signed, BigEndian, Pack, PackAll, WireAll, OnWire, Sendable;
    var m := FirstFrameIsPacked(buf, max);
    ParseFirst(buf, max);
    var f := FirstFrame(buf, max);
    if f.Complete? {
      var more := SplitOff(buf[f.len..], max);
      ms := [m] + more;
      OneMorePacked(m, more, max);
      var rest := Parse(buf, max).rest;
      assert PackAll(ms) + rest == Pack(m) + (PackAll(more) + rest);
    } else {
      ms := [];
      NonePacked(max);
    }
  }

  lemma ParseFirst(buf: seq<Byte>, max: nat)
    ensures var f, p := FirstFrame(buf, max), Parse(buf, max);
            if f.Complete? then
              var q := Parse(buf[f.len..], max);
              p.msgs == [f.msg] + q.msgs && p.rest == q.rest && p.status == q.status
            else p == Parsed([], buf, if f.Incomplete? then Open else Dropped(f))
  {
  }

  lemma OneMorePacked(m: Packable, more: seq<Packable>, max: nat)
    ensures PackAll([m] + more) == Pack(m) + PackAll(more)
    ensures WireAll([m] + more) == [OnWire(m)] + WireAll(more)
    ensures |m.data| <= max && Sendable(more, max) ==> Sendable([m] + more, max)
  {
    assert ([m] + more)[1..] == more;
  }

  lemma NonePacked(max: nat)
    ensures PackAll([]) == [] && WireAll([]) == [] && Sendable([], max)
  {
  }

  lemma {:induction false} DroppedByRest(buf: seq<Byte>, max: nat)
    ensures var p := Parse(buf, max); var rest := p.rest;
            && (p.status == Dropped(Corrupt) <==> |rest| >= 26 && !Signed(rest))
            && (p.status == Dropped(Oversized) <==> Signed(rest) && BigEndian(rest[22..26]) > max)
            && (p.status == Open ==> |rest| < 26 || (Signed(rest) && |rest| < 26 + BigEndian(rest[22..26])))
            && p.status in {Open, Dropped(Corrupt), Dropped(Oversized)}
    decreases |buf|
  {
    hide FirstFrame, Parse, BigEndian, Pack;
    var _ := FirstFrameIsPacked(buf, max);
    ParseFirst(buf, max);
    var f := FirstFrame(buf, max);
    if f.Complete? {
      DroppedByRest(buf[f.len..], max);
    }
  }

  // ---------------------------------------------------------------- any chunking

  /**
   What a reader has routed, still buffers and has decided after receiving chunks one by one:
   each `FrameReader.OnReceive` takes it from `p` to `Resume(p, chunk, max)`. A dropped stream is
   never read again.
   */
  function Feed(p: Parsed, chunks: seq<seq<Byte>>, max: nat): Parsed
    decreases |chunks|
  {
    if chunks == [] || !p.status.Open? then p else Feed(Resume(p, chunks[0], max), chunks[1..], max)
  }

  lemma {:induction false} FeedFromParsed(a: seq<Byte>, chunks: seq<seq<Byte>>, max: nat)
    ensures var p, q := Feed(Parse(a, max), chunks, max), Parse(a + Flatten(chunks), max);
            p.msgs == q.msgs && p.status == q.status && (p.status.Open? ==> p.rest == q.rest)
    decreases |chunks|
  {
    hide Parse, Resume;
    if chunks == [] {
      assert a + Flatten(chunks) == a;
    } else if Parse(a, max).status.Open? {
      ParseAppend(a, chunks[0], max);
      FeedFromParsed(a + chunks[0], chunks[1..], max);
      assert a + Flatten(chunks) == a + chunks[0] + Flatten(chunks[1..]);
    } else {
      ParseDropped(a, Flatten(chunks), max);
    }
  }

  lemma ParseDropped(a: seq<Byte>, b: seq<Byte>, max: nat)
    requires !Parse(a, max).status.Open?
    ensures Parse(a + b, max).msgs == Parse(a, max).msgs && Parse(a + b, max).status == Parse(a, max).status
  {
    ParseAppend(a, b, max);
  }

  /** However any byte stream is cut into chunks, the same messages are routed and the same fault found. */
  lemma ChunkingIndependent(chunks: seq<seq<Byte>>, max: nat)
    ensures var p, q := Feed(Parsed([], [], Open), chunks, max), Parse(Flatten(chunks), max);
            p.msgs == q.msgs && p.status == q.status && (p.status.Open? ==> p.rest == q.rest)
  {
    assert Parse([], max) == Parsed([], [], Open);
    FeedFromParsed([], chunks, max);
    assert [] + Flatten(chunks) == Flatten(chunks);
  }

  /** Packed messages come out of any chunking, in order, with no byte left over. */
  lemma RoundTripUnderAnyChunking(ms: seq<Packable>, chunks: seq<seq<Byte>>, max: nat)
    requires Sendable(ms, max) && Flatten(chunks) == PackAll(ms)
    ensures Feed(Parsed([], [], Open), chunks, max) == Parsed(WireAll(ms), [], Open)
  {
    ChunkingIndependent(chunks, max);
    PrefixParsesToPrefix(ms, PackAll(ms), max);
  }

  // ---------------------------------------------------------------- the reader

  /** `s[i:j]` with both bounds clamped to the length. */
  function Slice(s: seq<Byte>, i: nat, j: nat): (r: seq<Byte>)
  {
    var hi := if j < |s| then j else |s|;
    if i < hi then s[i..hi] else []
  }

  class FrameReader {
    const maxMessageSize: nat
    var inputBuf: seq<seq<Byte>>
    var inputBufLen: nat
    var routed: seq<Message>  // handed to the router, oldest first
    var status: Status

    constructor (max: nat)
      ensures Valid() && maxMessageSize == max && routed == [] && Buffered() == [] && status == Open
    {
      maxMessageSize, inputBuf, inputBufLen, routed, status := max, [], 0, [], Open;
    }

    ghost function Buffered(): seq<Byte>
      reads this
    {
      Flatten(inputBuf)
    }

    /**
     The header is read from the first chunk alone, and a short buffer is extended in place, so
     while several chunks are held the first must be long enough to hold a header, and all but the
     newest must fall short of a frame.
     */
    ghost predicate Shape()
      reads this
    {
      && inputBufLen == |Buffered()|
      && (|inputBuf| > 1 ==>
            && |inputBuf[0]| >= 128
            && FirstFrame(Flatten(inputBuf[..|inputBuf| - 1]), maxMessageSize).Incomplete?)
    }

    ghost predicate Valid()
      reads this
    {
      Shape() && (status.Open? ==> FirstFrame(Buffered(), maxMessageSize).Incomplete?)
    }

    method OnReceive(chunk: seq<Byte>)
      requires Valid() && status.Open?
      modifies this
      ensures Valid()
      ensures var p := Parse(old(Buffered()) + chunk, maxMessageSize);
              routed == old(routed) + p.msgs && Buffered() == p.rest && status == p.status
    {
      hide FirstFrame, Parse, Shape;
      ghost var all := Buffered() + chunk;
      Append(chunk);
      assert [] + Parse(all, maxMessageSize).msgs == Parse(all, maxMessageSize).msgs;
      var more := true;
      ghost var done: seq<Message> := [];
      while more
        invariant Shape() && (more ==> status.Open?)
        invariant !more && status.Open? ==> FirstFrame(Buffered(), maxMessageSize).Incomplete?
        invariant routed == old(routed) + done
        invariant Parse(all, maxMessageSize) ==
          Prepend(done, if status.Open? then Parse(Buffered(), maxMessageSize) else Parsed([], Buffered(), status))
        decreases |Buffered()|, more
      {
        ghost var f := FirstFrame(Buffered(), maxMessageSize);
        ParseOne(Buffered(), maxMessageSize, done);
        more := ReceiveOne();
        if f.Complete? {
          done := done + [f.msg];
        }
      }
      ParseOne(Buffered(), maxMessageSize, done);
    }

    /** Extends the only chunk while it is short, otherwise adds a chunk. */
    method Append(chunk: seq<Byte>)
      requires Valid() && status.Open?
      modifies this`inputBuf, this`inputBufLen
      ensures Shape() && Buffered() == old(Buffered()) + chunk
    {
      ghost var before := inputBuf;
      if inputBuf != [] && inputBufLen < 128 {
        FlattenLonger(inputBuf);
        assert inputBuf == [inputBuf[0]];
        FlattenOne(inputBuf[0]);
        FlattenOne(inputBuf[0] + chunk);
        inputBuf := [inputBuf[0] + chunk] + inputBuf[1..];
        assert inputBuf == [before[0] + chunk];
      } else {
        inputBuf := inputBuf + [chunk];
        FlattenSnoc(before, chunk);
        assert inputBuf[..|inputBuf| - 1] == before;
        if |before| == 1 {
          assert before == [before[0]];
          FlattenOne(before[0]);
        }
      }
      inputBufLen := inputBufLen + |chunk|;
    }

    /** Routes the first buffered frame, if it is complete. */
    method ReceiveOne() returns (more: bool)
      requires Shape() && status.Open?
      modifies this
      ensures Shape()
      ensures var f := FirstFrame(old(Buffered()), maxMessageSize);
              && more == f.Complete?
              && status == (if f.Complete? || f.Incomplete? then Open else Dropped(f))
              && routed == old(routed) + (if f.Complete? then [f.msg] else [])
              && Buffered() == old(Buffered())[(if f.Complete? then f.len else 0)..]
    {
      if inputBufLen < HEADER_LEN {
        return false;
      }
      HeaderInFirstChunk();
      var header := inputBuf[0][..HEADER_LEN];
      assert header == Buffered()[..HEADER_LEN];
      assert header[..2] == Buffered()[..2] && header[22..26] == Buffered()[22..26];
      if UnpackI16(header[..2]) != HEADER_MAGIC {
        status := Dropped(Corrupt);
        return false;
      }
      var len := UnpackU32(header[22..26]);
      if len > maxMessageSize {
        status := Dropped(Oversized);
        return false;
      }
      if inputBufLen < len + HEADER_LEN {
        return false;
      }
      var data := TakeFrame(HEADER_LEN + len);
      routed := routed + [MessageOf(header, data)];
      return true;
    }

    lemma HeaderInFirstChunk()
      requires Shape() && inputBufLen >= HEADER_LEN
      ensures inputBuf != [] && |inputBuf[0]| >= HEADER_LEN
      ensures inputBuf[0] <= Buffered()
    {
      if |inputBuf| == 1 {
        assert inputBuf == [inputBuf[0]];
        FlattenOne(inputBuf[0]);
      }
    }

    /** Removes a complete frame and puts back what is left of the last chunk it reached into. */
    method TakeFrame(total: nat) returns (data: seq<Byte>)
      requires Shape() && HEADER_LEN <= total <= inputBufLen
      requires FirstFrame(Buffered(), maxMessageSize).Complete?
      requires total == FirstFrame(Buffered(), maxMessageSize).len
      modifies this`inputBuf, this`inputBufLen
      ensures Shape() && |inputBuf| == 1
      ensures data == old(Buffered())[HEADER_LEN..total]
      ensures Buffered() == old(Buffered())[total..]
    {
      hide FirstFrame;
      ghost var all, chunks := Buffered(), inputBuf;
      HeaderInFirstChunk();
      var left;
      ghost var popped;
      data, left, popped := PopFrame(total);
      FrameReachesLastChunk(chunks, popped, all, total);
      inputBuf := [left] + inputBuf;
      FlattenOne(left);
      assert inputBuf == [left];
      inputBufLen := inputBufLen - total;
    }

    /** Pops chunks until `total` bytes are gone; `left` is the unused end of the last one. */
    method PopFrame(total: nat) returns (data: seq<Byte>, left: seq<Byte>, ghost popped: nat)
      requires inputBuf != [] && |inputBuf[0]| >= HEADER_LEN
      requires HEADER_LEN <= total <= |Buffered()|
      modifies this`inputBuf
      ensures 0 < popped <= |old(inputBuf)| && inputBuf == old(inputBuf)[popped..]
      ensures data == old(Buffered())[HEADER_LEN..total]
      ensures left + Buffered() == old(Buffered())[total..]
    {
      hide Flatten, Slice, Taken;
      ghost var all := Buffered();
      var start, prevStart, remain := HEADER_LEN, HEADER_LEN, total;
      var bits: seq<seq<Byte>> := [];
      var buf: seq<Byte>, bit: seq<Byte> := [], [];
      popped := 0;
      FlattenNone();
      while remain > 0
        invariant 0 <= remain <= total && start >= 0 && prevStart >= 0
        invariant popped <= |old(inputBuf)| && inputBuf == old(inputBuf)[popped..]
        invariant popped == 0 ==> remain == total && start == HEADER_LEN && Flatten(bits) == []
        invariant popped == 0 ==> Buffered() == all
        invariant popped > 0 ==> start == 0 && prevStart + |bit| <= |buf|
        invariant popped > 0 ==> Taken(all, total, remain, bits, buf[prevStart + |bit|..], Buffered())
        decreases |inputBuf|
      {
        if popped > 0 { TakenMore(all, total, remain, bits, buf[prevStart + |bit|..], Buffered()); }
        FlattenPop(inputBuf);
        buf := inputBuf[0];
        inputBuf, popped := inputBuf[1..], popped + 1;
        bit := Slice(buf, start, remain);
        TakeChunk(all, total, remain, bits, buf, Buffered(), start);
        bits := bits + [bit];
        remain := remain - (|bit| + start);
        prevStart := start;
        start := 0;
      }
      TakenAll(all, total, bits, buf[prevStart + |bit|..], Buffered());
      data := Flatten(bits);
      left := buf[prevStart + |bit|..];
    }

    /** A frame that only the newest chunk completes leaves no older chunk behind. */
    lemma FrameReachesLastChunk(chunks: seq<seq<Byte>>, popped: nat, all: seq<Byte>, total: nat)
      requires all == Flatten(chunks) && FirstFrame(all, maxMessageSize).Complete?
      requires total == FirstFrame(all, maxMessageSize).len
      requires |chunks| > 1 ==> FirstFrame(Flatten(chunks[..|chunks| - 1]), maxMessageSize).Incomplete?
                                && |chunks[0]| >= 128
      requires 0 < popped <= |chunks|
      requires |Flatten(chunks[popped..])| <= |all| - total
      ensures popped == |chunks|
    {
      hide FirstFrame;
      var tail := chunks[popped..];
      if tail != [] {
        var older, newest := chunks[..|chunks| - 1], chunks[|chunks| - 1];
        LastChunkShort(chunks, popped);
        CompleteInPrefix(Flatten(older), newest, maxMessageSize);
        assert false;
      }
    }
  }

  lemma LastChunkShort(chunks: seq<seq<Byte>>, popped: nat)
    requires popped < |chunks|
    ensures var older, newest := chunks[..|chunks| - 1], chunks[|chunks| - 1];
            Flatten(chunks) == Flatten(older) + newest && |newest| <= |Flatten(chunks[popped..])|
  {
    hide Flatten;
    var older, newest, tail := chunks[..|chunks| - 1], chunks[|chunks| - 1], chunks[popped..];
    assert chunks == older + [newest] && tail == tail[..|tail| - 1] + [newest];
    FlattenSnoc(older, newest);
    FlattenSnoc(tail[..|tail| - 1], newest);
  }

  /** All but the last `remain` bytes of the frame are taken; `rest` and `later` are what follows them. */
  ghost predicate Taken(
    all: seq<Byte>, total: nat, remain: int, bits: seq<seq<Byte>>, rest: seq<Byte>, later: seq<Byte>)
  {
    && 0 <= remain && HEADER_LEN <= total - remain <= |all|
    && Flatten(bits) == all[HEADER_LEN..total - remain]
    && rest + later == all[total - remain..] && (remain > 0 ==> rest == [])
  }

  lemma TakenMore(all: seq<Byte>, total: nat, remain: nat, bits: seq<seq<Byte>>, rest: seq<Byte>, later: seq<Byte>)
    requires Taken(all, total, remain, bits, rest, later) && 0 < remain && total <= |all|
    ensures Taken(all, total, remain, bits, [], later) && later != []
  {
  }

  lemma TakenAll(all: seq<Byte>, total: nat, bits: seq<seq<Byte>>, rest: seq<Byte>, later: seq<Byte>)
    requires Taken(all, total, 0, bits, rest, later)
    ensures Flatten(bits) == all[HEADER_LEN..total] && rest + later == all[total..]
  {
  }

  /** One round of the loop: the first skips the header, the others start where the last one ended. */
  lemma TakeChunk(
    all: seq<Byte>, total: nat, remain: nat, bits: seq<seq<Byte>>, buf: seq<Byte>, later: seq<Byte>, start: nat)
    requires 0 < remain <= total && HEADER_LEN <= total <= |all|
    requires if start == 0 then Taken(all, total, remain, bits, [], buf + later)
             else && start == HEADER_LEN <= |buf| && remain == total
                  && Flatten(bits) == [] && all == buf + later
    ensures var bit := Slice(buf, start, remain);
            && start + |bit| <= |buf| && |bit| + start <= remain
            && Taken(all, total, remain - (|bit| + start), bits + [bit], buf[start + |bit|..], later)
  {
    hide Flatten, Slice, Taken;
    SliceIs(buf, start, remain);
    FlattenSnoc(bits, Slice(buf, start, remain));
    if start == 0 {
      TakeNext(all, total, remain, bits, Slice(buf, start, remain), buf, later);
    } else {
      TakeFirst(all, total, bits, Slice(buf, start, remain), buf, later);
    }
  }

  lemma TakeFirst(all: seq<Byte>, total: nat, bits: seq<seq<Byte>>, bit: seq<Byte>, buf: seq<Byte>, later: seq<Byte>)
    requires HEADER_LEN <= total <= |all| && HEADER_LEN <= |buf| && all == buf + later
    requires |bit| == (if total < |buf| then total else |buf|) - HEADER_LEN
    requires bit == buf[HEADER_LEN..HEADER_LEN + |bit|] && Flatten(bits + [bit]) == [] + bit
    ensures Taken(all, total, total - (|bit| + HEADER_LEN), bits + [bit], buf[HEADER_LEN + |bit|..], later)
  {
    hide Flatten;
    var used := HEADER_LEN + |bit|;
    CutChunk(all, 0, buf, later, HEADER_LEN, used);
    assert all[0..] == all && [] + bit == bit;
  }

  lemma TakeNext(
    all: seq<Byte>, total: nat, remain: nat, bits: seq<seq<Byte>>, bit: seq<Byte>, buf: seq<Byte>, later: seq<Byte>)
    requires 0 < remain <= total <= |all| && Taken(all, total, remain, bits, [], buf + later)
    requires |bit| == (if remain < |buf| then remain else |buf|) && bit == buf[0..0 + |bit|]
    requires Flatten(bits + [bit]) == Flatten(bits) + bit
    ensures Taken(all, total, remain - |bit|, bits + [bit], buf[|bit|..], later)
  {
    hide Flatten;
    var gone := total - remain;
    assert [] + (buf + later) == buf + later;
    CutChunk(all, gone, buf, later, 0, |bit|);
    JoinSlices(all, HEADER_LEN, gone, gone + |bit|);
  }

  lemma SliceIs(s: seq<Byte>, i: nat, j: nat)
    requires i <= j && i <= |s|
    ensures |Slice(s, i, j)| == (if j < |s| then j else |s|) - i
    ensures Slice(s, i, j) == s[i..i + |Slice(s, i, j)|]
  {
  }

  lemma JoinSlices(all: seq<Byte>, i: nat, j: nat, k: nat)
    requires i <= j <= k <= |all|
    ensures all[i..j] + all[j..k] == all[i..k]
  {
  }

  lemma CutChunk(all: seq<Byte>, gone: nat, buf: seq<Byte>, later: seq<Byte>, start: nat, used: nat)
    requires gone <= |all| && all[gone..] == buf + later && start <= used <= |buf|
    ensures gone + used <= |all|
    ensures buf[start..used] == all[gone + start..gone + used]
    ensures buf[used..] + later == all[gone + used..]
  {
    assert all[gone..][start..used] == buf[start..used];
    assert all[gone..][used..] == buf[used..] + later;
  }

  lemma FlattenLonger(ss: seq<seq<Byte>>)
    requires ss != []
    ensures |Flatten(ss)| >= |ss[0]|
  {
  }

  lemma FlattenNone()
    ensures Flatten<Byte>([]) == []
  {
  }

  lemma FlattenPop(ss: seq<seq<Byte>>)
    requires ss != []
    ensures Flatten(ss) == ss[0] + Flatten(ss[1..])
  {
  }

  lemma FlattenOne(s: seq<Byte>)
    ensures Flatten([s]) == s
  {
    assert [s][1..] == [];
  }
}
