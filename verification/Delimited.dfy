/**
 Line-oriented protocols: `iter_split`, `DelimitedProtocol.on_receive`, and the hand-off in the
 middle of a buffer to the protocol that follows, such as the frame reader.
 */
module Delimited {
  import opened Seqs
  import opened Frames

  type Line = seq<Byte>

  /** `on_line_received`, as a function of every line received so far: false asks to stop. */
  type Handler = seq<Line> -> bool

  predicate OccursAt(buf: seq<Byte>, delim: seq<Byte>, i: int)
  {
    0 <= i && i + |delim| <= |buf| && buf[i..i + |delim|] == delim
  }

  /** `buf.find(delim, start)`. */
  function Find(buf: seq<Byte>, delim: seq<Byte>, start: nat): (r: int)
    ensures r == -1 || (start <= r && OccursAt(buf, delim, r))
    ensures forall i :: start <= i && (r == -1 || i < r) ==> !OccursAt(buf, delim, i)
    decreases |buf| - start
  {
    if start + |delim| > |buf| then -1
    else if OccursAt(buf, delim, start) then start
    else Find(buf, delim, start + 1)
  }

  /** Complete lines, the bytes after them, and whether the last handler asked to go on. */
  datatype Cut = Cut(lines: seq<Line>, rest: seq<Byte>, cont: bool)

  /** Reference: split off the first line, let the handler decide, and go on with what follows. */
  function Split(buf: seq<Byte>, delim: seq<Byte>, past: seq<Line>, h: Handler): Cut
    requires delim != []
    decreases |buf|
  {
    var nl := Find(buf, delim, 0);
    if nl == -1 then Cut([], buf, true)
    else
      var line, rest := buf[..nl], buf[nl + |delim|..];
      if !h(past + [line]) then Cut([line], rest, false)
      else Precede([line], Split(rest, delim, past + [line], h))
  }

  lemma SplitNone(buf: seq<Byte>, delim: seq<Byte>, past: seq<Line>, h: Handler)
    requires delim != [] && Find(buf, delim, 0) == -1
    ensures Split(buf, delim, past, h) == Cut([], buf, true)
  {
  }

  lemma SplitFirst(
    buf: seq<Byte>, line: Line, rest: seq<Byte>, delim: seq<Byte>, past: seq<Line>, past': seq<Line>, h: Handler)
    requires delim != []
    requires var nl := Find(buf, delim, 0); nl != -1 && line == buf[..nl] && rest == buf[nl + |delim|..]
    requires past' == past + [line]
    ensures |rest| < |buf|
    ensures Split(buf, delim, past, h) ==
      if h(past') then Precede([line], Split(rest, delim, past', h)) else Cut([line], rest, false)
  {
    hide Find, Precede;
  }

  function Precede(lines: seq<Line>, c: Cut): Cut
  {
    c.(lines := lines + c.lines)
  }

  lemma OccursInTail(buf: seq<Byte>, delim: seq<Byte>, start: nat, i: nat)
    requires start <= |buf|
    ensures OccursAt(buf[start..], delim, i) <==> OccursAt(buf, delim, start + i)
  {
    if i + |delim| <= |buf[start..]| {
      assert buf[start..][i..i + |delim|] == buf[start + i..start + i + |delim|];
    }
  }

  lemma FindFrom(buf: seq<Byte>, delim: seq<Byte>, start: nat)
    requires start <= |buf| && delim != []
    ensures var r := Find(buf[start..], delim, 0);
            Find(buf, delim, start) == if r == -1 then -1 else start + r
  {
    var r, q := Find(buf[start..], delim, 0), Find(buf, delim, start);
    if r != -1 {
      OccursInTail(buf, delim, start, r);
    }
    if q != -1 {
      OccursInTail(buf, delim, start, q - start);
    }
  }

  lemma PrecedeTwice(x: seq<Line>, y: seq<Line>, c: Cut)
    ensures Precede(x, Precede(y, c)) == Precede(x + y, c)
  {
    assert x + (y + c.lines) == x + y + c.lines;
  }

  /** The source's loop over offsets into one buffer computes the reference split. */
  method IterSplit(buf: seq<Byte>, delim: seq<Byte>, past: seq<Line>, h: Handler) returns (c: Cut)
    requires delim != []
    ensures c == Split(buf, delim, past, h)
  {
    hide Split;
    var start, cont := 0, true;
    var lines: seq<Line> := [];
    assert buf[0..] == buf && past + [] == past;
    while cont
      invariant 0 <= start <= |buf|
      invariant Split(buf, delim, past, h) ==
        Precede(lines, if cont then Split(buf[start..], delim, past + lines, h) else Cut([], buf[start..], false))
      decreases |buf| - start, cont
    {
      var nl := Find(buf, delim, start);
      FindFrom(buf, delim, start);
      if nl == -1 {
        SplitNone(buf[start..], delim, past + lines, h);
        break;
      }
      var line := buf[start..nl];
      SplitFirst(buf[start..], line, buf[nl + |delim|..], delim, past + lines, past + (lines + [line]), h);
      PrecedeTwice(lines, [line], Split(buf[nl + |delim|..], delim, past + (lines + [line]), h));
      cont := h(past + (lines + [line]));
      lines := lines + [line];
      start := nl + |delim|;
    }
    c := Cut(lines, buf[start..], cont);
  }

  class DelimitedProtocol {
    const delimiter: seq<Byte>
    const handler: Handler
    var trailer: seq<Byte>
    var lines: seq<Line>            // passed to on_line_received
    var partials: seq<Line>         // passed to on_partial_line_received
    var active: bool                // still the stream's protocol
    var passed: seq<seq<Byte>>      // passed to the next protocol's on_receive

    constructor (delim: seq<Byte>, h: Handler)
      ensures delimiter == delim && handler == h
      ensures trailer == [] && lines == [] && partials == [] && active && passed == []
    {
      delimiter, handler, trailer, lines, partials, active, passed := delim, h, [], [], [], true, [];
    }

    method OnReceive(buf: seq<Byte>)
      requires delimiter != [] && active
      modifies this
      ensures var c := Split(old(trailer) + buf, delimiter, old(lines), handler);
              && lines == old(lines) + c.lines && trailer == c.rest && active == c.cont
              && partials == old(partials) + (if c.cont && c.rest != [] then [c.rest] else [])
              && passed == old(passed) + (if !c.cont && c.rest != [] then [c.rest] else [])
    {
      var c := IterSplit(trailer + buf, delimiter, lines, handler);
      lines, trailer, active := lines + c.lines, c.rest, c.cont;
      if trailer != [] {
        if c.cont {
          partials := partials + [trailer];
        } else {
          passed := passed + [trailer];
        }
      }
    }
  }

  // ---------------------------------------------------------------- any chunking

  lemma OccursInPrefix(a: seq<Byte>, b: seq<Byte>, delim: seq<Byte>, i: nat)
    requires i + |delim| <= |a|
    ensures OccursAt(a + b, delim, i) <==> OccursAt(a, delim, i)
  {
    assert (a + b)[i..i + |delim|] == a[i..i + |delim|];
  }

  lemma FindInPrefix(a: seq<Byte>, b: seq<Byte>, delim: seq<Byte>)
    requires Find(a, delim, 0) != -1
    ensures Find(a + b, delim, 0) == Find(a, delim, 0)
  {
    var nl := Find(a, delim, 0);
    OccursInPrefix(a, b, delim, nl);
    forall i | 0 <= i < nl ensures !OccursAt(a + b, delim, i) {
      OccursInPrefix(a, b, delim, i);
    }
  }

  /** What splitting some bytes, and then more bytes after them, comes to. */
  function Resume(c: Cut, more: seq<Byte>, delim: seq<Byte>, past: seq<Line>, h: Handler): Cut
    requires delim != []
  {
    if c.cont then Precede(c.lines, Split(c.rest + more, delim, past + c.lines, h)) else c.(rest := c.rest + more)
  }

  lemma {:induction false} SplitAppend(a: seq<Byte>, b: seq<Byte>, delim: seq<Byte>, past: seq<Line>, h: Handler)
    requires delim != []
    ensures Split(a + b, delim, past, h) == Resume(Split(a, delim, past, h), b, delim, past, h)
    decreases |a|
  {
    hide Find, Split;
    var nl := Find(a, delim, 0);
    if nl == -1 {
      SplitNone(a, delim, past, h);
      assert past + [] == past;
      assert [] + Split(a + b, delim, past, h).lines == Split(a + b, delim, past, h).lines;
    } else {
      FindInPrefix(a, b, delim);
      var line, rest := a[..nl], a[nl + |delim|..];
      SplitFirst(a, line, rest, delim, past, past + [line], h);
      SplitFirst(a + b, line, rest + b, delim, past, past + [line], h);
      if h(past + [line]) {
        SplitAppend(rest, b, delim, past + [line], h);
        var c := Split(rest, delim, past + [line], h);
        if c.cont {
          assert past + [line] + c.lines == past + ([line] + c.lines);
          PrecedeTwice([line], c.lines, Split(c.rest + b, delim, past + [line] + c.lines, h));
        }
      }
    }
  }

  /**
   A stream that starts under a delimited protocol. `cut` is what that protocol has made of the
   bytes it saw; after it stopped, everything else goes to the next protocol, chunk by chunk.
   */
  datatype Stream = Stream(cut: Cut, passed: seq<seq<Byte>>)

  function Deliver(s: Stream, chunk: seq<Byte>, delim: seq<Byte>, h: Handler): Stream
    requires delim != []
  {
    if s.cut.cont then
      var c := Resume(s.cut, chunk, delim, [], h);
      Stream(c, if !c.cont && c.rest != [] then [c.rest] else [])
    else s.(passed := s.passed + [chunk])
  }

  function DeliverAll(s: Stream, chunks: seq<seq<Byte>>, delim: seq<Byte>, h: Handler): Stream
    requires delim != []
    decreases |chunks|
  {
    if chunks == [] then s else DeliverAll(Deliver(s, chunks[0], delim, h), chunks[1..], delim, h)
  }

  /** `s` is what the bytes `seen` lead to. */
  ghost predicate Tracks(s: Stream, seen: seq<Byte>, delim: seq<Byte>, h: Handler)
    requires delim != []
  {
    var c := Split(seen, delim, [], h);
    && s.cut.lines == c.lines && s.cut.cont == c.cont
    && (c.cont ==> s.cut.rest == c.rest && s.passed == [])
    && (!c.cont ==> Flatten(s.passed) == c.rest)
  }

  lemma DeliverTracks(s: Stream, seen: seq<Byte>, chunk: seq<Byte>, delim: seq<Byte>, h: Handler)
    requires delim != [] && Tracks(s, seen, delim, h)
    ensures Tracks(Deliver(s, chunk, delim, h), seen + chunk, delim, h)
  {
    hide Split;
    SplitAppend(seen, chunk, delim, [], h);
    if s.cut.cont {
      var c := Resume(s.cut, chunk, delim, [], h);
      FlattenOne(c.rest);
    } else {
      FlattenSnoc(s.passed, chunk);
    }
  }

  lemma {:induction false} DeliverAllTracks(
    s: Stream, seen: seq<Byte>, chunks: seq<seq<Byte>>, delim: seq<Byte>, h: Handler)
    requires delim != [] && Tracks(s, seen, delim, h)
    ensures Tracks(DeliverAll(s, chunks, delim, h), seen + Flatten(chunks), delim, h)
    decreases |chunks|
  {
    hide Tracks, Deliver;
    if chunks == [] {
      assert seen + Flatten(chunks) == seen;
    } else {
      DeliverTracks(s, seen, chunks[0], delim, h);
      DeliverAllTracks(Deliver(s, chunks[0], delim, h), seen + chunks[0], chunks[1..], delim, h);
      assert seen + Flatten(chunks) == seen + chunks[0] + Flatten(chunks[1..]);
    }
  }

  const UNTOUCHED := Stream(Cut([], [], true), [])

  /**
   However a stream is cut into chunks, the lines delivered are those of splitting the whole stream
   up to the line whose handler stopped it, and the bytes after that line's delimiter, exactly once
   and in order, are what the next protocol receives.
   */
  lemma LinesIndependentOfChunking(chunks: seq<seq<Byte>>, delim: seq<Byte>, h: Handler)
    requires delim != []
    ensures var s, whole := DeliverAll(UNTOUCHED, chunks, delim, h), Split(Flatten(chunks), delim, [], h);
            && s.cut.lines == whole.lines && s.cut.cont == whole.cont
            && (whole.cont ==> s.cut.rest == whole.rest && s.passed == [])
            && (!whole.cont ==> Flatten(s.passed) == whole.rest)
  {
    assert Split([], delim, [], h) == Cut([], [], true);
    DeliverAllTracks(UNTOUCHED, [], chunks, delim, h);
    assert [] + Flatten(chunks) == Flatten(chunks);
  }

  /**
   Splitting loses nothing: putting the delimiter back after each line gives the input again, and
   no line, nor an undelimited trailer, contains the delimiter.
   */
  lemma {:induction false} SplitLossless(buf: seq<Byte>, delim: seq<Byte>, past: seq<Line>, h: Handler)
    requires delim != []
    ensures var c := Split(buf, delim, past, h);
            && Join(c.lines, delim) + c.rest == buf
            && (c.cont ==> Find(c.rest, delim, 0) == -1)
            && (forall k :: 0 <= k < |c.lines| ==> Find(c.lines[k], delim, 0) == -1)
    decreases |buf|
  {
    hide Find;
    var nl := Find(buf, delim, 0);
    if nl != -1 {
      var line, rest := buf[..nl], buf[nl + |delim|..];
      assert buf == line + delim + rest;
      NotWithinFirstLine(buf, delim);
      if h(past + [line]) {
        SplitLossless(rest, delim, past + [line], h);
        var d := Split(rest, delim, past + [line], h);
        assert ([line] + d.lines)[1..] == d.lines;
        assert line + delim + Join(d.lines, delim) + d.rest == line + delim + (Join(d.lines, delim) + d.rest);
      } else {
        var only: seq<Line> := [line];
        assert only[1..] == [];
        assert Join([line], delim) == line + delim + [];
      }
    }
  }

  lemma NotWithinFirstLine(buf: seq<Byte>, delim: seq<Byte>)
    requires delim != [] && Find(buf, delim, 0) != -1
    ensures Find(buf[..Find(buf, delim, 0)], delim, 0) == -1
  {
    var nl := Find(buf, delim, 0);
    assert buf == buf[..nl] + buf[nl..];
    var r := Find(buf[..nl], delim, 0);
    if r != -1 {
      OccursInPrefix(buf[..nl], buf[nl..], delim, r);
    }
  }

  /** Every delivered line was one the handler asked to go on after, but a line that stopped it. */
  predicate GoesOn(past: seq<Line>, lines: seq<Line>, k: nat, h: Handler)
    requires k < |lines|
  {
    h(past + lines[..k + 1])
  }

  lemma {:induction false} StopsAtFirstRefusal(buf: seq<Byte>, delim: seq<Byte>, past: seq<Line>, h: Handler)
    requires delim != []
    ensures var c := Split(buf, delim, past, h);
            && (forall k :: 0 <= k < |c.lines| ==>
                  (GoesOn(past, c.lines, k, h) <==> (c.cont || k < |c.lines| - 1)))
            && (!c.cont ==> c.lines != [])
    decreases |buf|
  {
    hide Find, Split;
    var nl := Find(buf, delim, 0);
    if nl == -1 {
      SplitNone(buf, delim, past, h);
    } else {
      var line, rest := buf[..nl], buf[nl + |delim|..];
      SplitFirst(buf, line, rest, delim, past, past + [line], h);
      var c := Split(buf, delim, past, h);
      assert c.lines[..1] == [line];
      if h(past + [line]) {
        StopsAtFirstRefusal(rest, delim, past + [line], h);
        var d := Split(rest, delim, past + [line], h);
        forall k | 1 <= k < |c.lines|
          ensures GoesOn(past, c.lines, k, h) <==> (c.cont || k < |c.lines| - 1)
        {
          assert GoesOn(past + [line], d.lines, k - 1, h) <==> (d.cont || k - 1 < |d.lines| - 1);
          assert past + c.lines[..k + 1] == past + [line] + d.lines[..k];
        }
      }
    }
  }

  function Join(lines: seq<Line>, delim: seq<Byte>): seq<Byte>
  {
    if lines == [] then [] else lines[0] + delim + Join(lines[1..], delim)
  }

  /**
   The hand-off from the boot protocol to the frame reader: text up to the line that ends it,
   followed by packed messages, routes exactly those messages under any chunking.
   */
  lemma HandOffToFrames(
    text: seq<Byte>, ms: seq<Packable>, chunks: seq<seq<Byte>>, delim: seq<Byte>, h: Handler, max: nat)
    requires delim != [] && Sendable(ms, max)
    requires var c := Split(text, delim, [], h); !c.cont && c.rest == []
    requires Flatten(chunks) == text + PackAll(ms)
    ensures var s := DeliverAll(UNTOUCHED, chunks, delim, h);
            && s.cut.lines == Split(text, delim, [], h).lines
            && Feed(Parsed([], [], Open), s.passed, max) == Parsed(WireAll(ms), [], Open)
  {
    LinesIndependentOfChunking(chunks, delim, h);
    SplitAppend(text, PackAll(ms), delim, [], h);
    RoundTripUnderAnyChunking(ms, DeliverAll(UNTOUCHED, chunks, delim, h).passed, max);
  }
}
