/**
 `BufferedWriter` and a whole link: a writer facing an operating system that accepts any part of
 what it is offered, a byte pipe, and the frame reader at the far end.
 */
module Link {
  import opened Seqs
  import opened Frames

  /** What one attempt to write to the stream's descriptor comes to. */
  datatype OsWrite =
    | Wrote(n: nat)  // a number of bytes, possibly 0
    | Gone           // disconnection detected: None
    | Raised         // OSError, such as EAGAIN

  datatype Writer = Writer(buf: seq<seq<Byte>>, len: nat, registered: bool, connected: bool)

  /** The writer after `write(s)`, and the bytes the operating system took. */
  function Write(w: Writer, s: seq<Byte>, os: OsWrite): (Writer, seq<Byte>)
    requires os.Wrote? ==> os.n <= |s|
  {
    if w.len > 0 then
      (w.(buf := w.buf + [s], len := w.len + |s|), [])
    else if os.Wrote? && os.n > 0 && os.n == |s| then
      (w, s)
    else
      var n := if os.Wrote? then os.n else 0;
      (w.(buf := w.buf + [s[n..]], len := w.len + |s[n..]|, registered := true), s[..n])
  }

  /** The writer after `on_transmit`, and the bytes the operating system took. */
  function Transmit(w: Writer, os: OsWrite): (Writer, seq<Byte>)
    requires os.Wrote? && w.buf != [] ==> os.n <= |w.buf[0]|
    requires w.buf != [] ==> |w.buf[0]| <= w.len
  {
    if w.buf == [] then (w.(registered := false), [])
    else if !os.Wrote? || os.n == 0 then
      (w.(buf := w.buf[1..], registered := false, connected := false), [])
    else
      var buf' := if os.n == |w.buf[0]| then w.buf[1..] else [w.buf[0][os.n..]] + w.buf[1..];
      (w.(buf := buf', len := w.len - os.n, registered := w.registered && buf' != []), w.buf[0][..os.n])
  }

  /** `_len` is the buffered total. */
  predicate Counted(w: Writer)
  {
    w.len == |Flatten(w.buf)|
  }

  /** ... and the stream waits for writability exactly while something is buffered, none of it empty. */
  predicate Consistent(w: Writer)
  {
    && Counted(w)
    && (forall k :: 0 <= k < |w.buf| ==> w.buf[k] != [])
    && (w.registered <==> w.buf != [])
  }

  class BufferedWriter {
    var buf: seq<seq<Byte>>
    var len: nat
    var registered: bool   // Broker._start_transmit / _stop_transmit
    var connected: bool    // until Stream.on_disconnect

    constructor ()
      ensures State() == Writer([], 0, false, true)
    {
      buf, len, registered, connected := [], 0, false, true;
    }

    function State(): Writer
      reads this
    {
      Writer(buf, len, registered, connected)
    }

    method WriteBytes(s: seq<Byte>, os: OsWrite) returns (taken: seq<Byte>)
      requires os.Wrote? ==> os.n <= |s|
      modifies this
      ensures (State(), taken) == Write(old(State()), s, os)
    {
      var s' := s;
      taken := [];
      if len == 0 {
        if os.Wrote? && os.n > 0 {
          taken := s'[..os.n];
          if os.n == |s'| {
            assert taken == s;
            return;
          }
          s' := s'[os.n..];
        }
        registered := true;
      }
      buf := buf + [s'];
      len := len + |s'|;
    }

    method OnTransmit(os: OsWrite) returns (taken: seq<Byte>)
      requires Counted(State()) && connected
      requires os.Wrote? && buf != [] ==> os.n <= |buf[0]|
      modifies this
      ensures FirstFits(old(State()))
      ensures (State(), taken) == Transmit(old(State()), os)
    {
      FirstChunkFits(State());
      taken := [];
      if buf != [] {
        var first := buf[0];
        buf := buf[1..];
        if !os.Wrote? || os.n == 0 {
          registered, connected := false, false;
          return;
        }
        taken := first[..os.n];
        if os.n != |first| {
          buf := [first[os.n..]] + buf;
        }
        len := len - os.n;
      }
      if buf == [] {
        registered := false;
      }
    }
  }

  predicate FirstFits(w: Writer)
  {
    w.buf != [] ==> |w.buf[0]| <= w.len
  }

  lemma FirstChunkFits(w: Writer)
    requires Counted(w)
    ensures FirstFits(w)
  {
    if w.buf != [] {
      FlattenLonger(w.buf);
    }
  }

  /** No byte is lost, repeated or reordered by a write, and what is taken is what the operating system took. */
  lemma WriteConserves(w: Writer, s: seq<Byte>, os: OsWrite)
    requires Consistent(w) && s != [] && (os.Wrote? ==> os.n <= |s|)
    ensures var (w', taken) := Write(w, s, os);
            && Consistent(w') && w'.connected == w.connected && taken + Flatten(w'.buf) == Flatten(w.buf) + s
            && |taken| == (if w.buf == [] && os.Wrote? then os.n else 0)
  {
    var (w', taken) := Write(w, s, os);
    if w.len == 0 && w.buf != [] {
      FlattenLonger(w.buf);
    }
    if w' != w {
      FlattenSnoc(w.buf, w'.buf[|w.buf|]);
    }
  }

  /** Nor by a retry, unless the connection turns out to be gone. */
  lemma TransmitConserves(w: Writer, os: OsWrite)
    requires Consistent(w) && FirstFits(w) && (os.Wrote? && w.buf != [] ==> os.n <= |w.buf[0]|)
    ensures var (w', taken) := Transmit(w, os);
            && (w'.connected && w.connected ==> Consistent(w') && taken + Flatten(w'.buf) == Flatten(w.buf))
            && (!w'.connected ==> taken == [] || !w.connected)
            && |taken| == (if w.buf != [] && os.Wrote? then os.n else 0)
  {
    if w.buf != [] && os.Wrote? && os.n > 0 {
      var first, rest := w.buf[0], w.buf[1..];
      assert first == first[..os.n] + first[os.n..];
      assert Flatten(w.buf) == first + Flatten(rest);
      FlattenPush(first[os.n..], rest);
      assert first[..os.n] + (first[os.n..] + Flatten(rest)) == first + Flatten(rest);
      assert forall k :: 0 <= k < |rest| ==> rest[k] == w.buf[k + 1];
    }
  }

  /**
   A retry disconnects exactly if there is something to write of which nothing is taken; the chunk it tried to
   write is lost with the connection. And it goes on waiting for writability only while something is left.
   */
  lemma RetryDisconnectsIff(w: Writer, os: OsWrite)
    requires FirstFits(w) && w.connected && (os.Wrote? && w.buf != [] ==> os.n <= |w.buf[0]|)
    ensures var (w', taken) := Transmit(w, os);
            && (!w'.connected <==> w.buf != [] && taken == [])
            && (!w'.connected ==> !w'.registered && w'.buf == w.buf[1..])
            && (w'.registered ==> w.registered && w'.buf != [])
  {
    if w.buf != [] && os.Wrote? && os.n > 0 {
      assert |w.buf[0][..os.n]| == os.n;
    }
  }

  lemma FlattenPush(first: seq<Byte>, rest: seq<seq<Byte>>)
    ensures Flatten([first] + rest) == first + Flatten(rest)
  {
    assert ([first] + rest)[1..] == rest;
  }

  // ---------------------------------------------------------------- empty writes

  /** A call of `write` or of `on_transmit`, with what the operating system makes of it. */
  datatype Op = Put(s: seq<Byte>, os: OsWrite) | Retrial(os: OsWrite)

  predicate Fits(w: Writer, op: Op)
  {
    match op
    case Put(s, os) => os.Wrote? ==> os.n <= |s|
    case Retrial(os) => Counted(w) && (os.Wrote? && w.buf != [] ==> os.n <= |w.buf[0]|)
  }

  function Do(w: Writer, op: Op): Writer
    requires Fits(w, op)
  {
    match op
    case Put(s, os) => Write(w, s, os).0
    case Retrial(os) => FirstChunkFits(w); Transmit(w, os).0
  }

  /** The operating system takes something whenever it is offered something at a retry. */
  predicate Takes(w: Writer, op: Op)
  {
    op.Retrial? && w.buf != [] && w.buf[0] != [] ==> op.os.Wrote? && op.os.n > 0
  }

  /** Calls that fit, up to a disconnection if there is one. */
  ghost predicate CanDo(w: Writer, ops: seq<Op>)
    decreases |ops|
  {
    ops == [] || !w.connected || (Fits(w, ops[0]) && Takes(w, ops[0]) && CanDo(Do(w, ops[0]), ops[1..]))
  }

  ghost function DoAll(w: Writer, ops: seq<Op>): Writer
    requires CanDo(w, ops)
    decreases |ops|
  {
    if ops == [] || !w.connected then w else DoAll(Do(w, ops[0]), ops[1..])
  }

  predicate HoldsEmpty(w: Writer)
  {
    exists k :: 0 <= k < |w.buf| && w.buf[k] == []
  }

  /** A write keeps the writer consistent exactly if it is not empty, whatever the operating system does. */
  lemma WriteKeepsConsistentIff(w: Writer, s: seq<Byte>, os: OsWrite)
    requires Consistent(w) && (os.Wrote? ==> os.n <= |s|)
    ensures Consistent(Write(w, s, os).0) <==> s != []
    ensures s == [] ==> HoldsEmpty(Write(w, s, os).0)
  {
    if s == [] {
      var w' := Write(w, s, os).0;
      assert w'.buf[|w.buf|] == [];
    } else {
      WriteConserves(w, s, os);
    }
  }

  /** An empty chunk is never got rid of: it stays, and once it comes up the retry disconnects, whatever the outcome. */
  lemma EmptyChunkStays(w: Writer, op: Op)
    requires HoldsEmpty(w) && Fits(w, op) && w.connected
    ensures !Do(w, op).connected || HoldsEmpty(Do(w, op))
    ensures op.Retrial? && w.buf[0] == [] ==> !Do(w, op).connected
  {
    var k :| 0 <= k < |w.buf| && w.buf[k] == [];
    var w' := Do(w, op);
    if op.Put? {
      assert w'.buf == w.buf || w'.buf[k] == [];
    } else if w'.connected {
      assert k > 0 && w'.buf[|w'.buf| - (|w.buf| - k)] == [];
    }
  }

  lemma {:induction false} EmptyChunkNeverPasses(w: Writer, ops: seq<Op>)
    requires HoldsEmpty(w) && CanDo(w, ops)
    ensures !DoAll(w, ops).connected || HoldsEmpty(DoAll(w, ops))
    decreases |ops|
  {
    if ops != [] && w.connected {
      EmptyChunkStays(w, ops[0]);
      if Do(w, ops[0]).connected {
        EmptyChunkNeverPasses(Do(w, ops[0]), ops[1..]);
      }
    }
  }

  /**
   Over any calls, with an operating system that takes something at every retry: the writer stays connected
   and consistent if and only if none of the writes is empty. After an empty one it can never be drained.
   */
  lemma {:induction false} DisconnectsIffEmptyWrite(w: Writer, ops: seq<Op>)
    requires Consistent(w) && w.connected && CanDo(w, ops)
    ensures var w' := DoAll(w, ops);
            && (w'.connected && Consistent(w') <==> forall i :: 0 <= i < |ops| && ops[i].Put? ==> ops[i].s != [])
            && (w'.connected && w'.buf == [] ==> forall i :: 0 <= i < |ops| && ops[i].Put? ==> ops[i].s != [])
    decreases |ops|
  {
    if ops != [] {
      var w1, rest := Do(w, ops[0]), ops[1..];
      assert forall i :: 0 <= i < |rest| ==> rest[i] == ops[i + 1];
      if ops[0].Put? && ops[0].s == [] {
        WriteKeepsConsistentIff(w, [], ops[0].os);
        EmptyChunkNeverPasses(w1, rest);
      } else {
        if ops[0].Put? {
          WriteConserves(w, ops[0].s, ops[0].os);
        } else {
          FirstChunkFits(w);
          TransmitConserves(w, ops[0].os);
        }
        DisconnectsIffEmptyWrite(w1, rest);
      }
    }
  }

  /** The shortest case: an empty write to an idle writer, and the retry that it causes. */
  lemma EmptyWriteDisconnects(w: Writer, os: OsWrite)
    requires Consistent(w) && w.buf == [] && w.connected && (os.Wrote? ==> os.n == 0)
    ensures var w' := Write(w, [], os).0;
            w'.registered && FirstFits(w') && !Transmit(w', os).0.connected
  {
  }

  // ---------------------------------------------------------------- a link

  /** `sent` are the messages written, `fed` the bytes the reader has received, `wire` those between. */
  datatype LinkState = LinkState(
    sent: seq<Packable>,
    writer: Writer,
    wire: seq<Byte>,
    fed: seq<Byte>,
    reader: Parsed)

  datatype LinkEvent =
    | Send(m: Packable, os: OsWrite)
    | Retry(os: OsWrite)
    | Receive(n: nat)

  predicate Enabled(s: LinkState, e: LinkEvent, max: nat)
  {
    match e
    case Send(m, os) => s.writer.connected && |m.data| <= max && (os.Wrote? ==> os.n <= |Pack(m)|)
    case Retry(os) =>
      && s.writer.connected && s.writer.registered && FirstFits(s.writer)
      && (os.Wrote? && s.writer.buf != [] ==> os.n <= |s.writer.buf[0]|)
    case Receive(n) => 0 < n <= |s.wire| && s.reader.status.Open?
  }

  function Apply(s: LinkState, e: LinkEvent, max: nat): LinkState
    requires Enabled(s, e, max)
  {
    match e
    case Send(m, os) =>
      var (w, taken) := Write(s.writer, Pack(m), os);
      s.(sent := s.sent + [m], writer := w, wire := s.wire + taken)
    case Retry(os) =>
      var (w, taken) := Transmit(s.writer, os);
      s.(writer := w, wire := s.wire + taken)
    case Receive(n) =>
      s.(wire := s.wire[n..], fed := s.fed + s.wire[..n], reader := Resume(s.reader, s.wire[..n], max))
  }

  predicate Inv(s: LinkState, max: nat)
  {
    && Sendable(s.sent, max)
    && s.reader == Parse(s.fed, max)
    && (if s.writer.connected
        then Consistent(s.writer) && s.fed + s.wire + Flatten(s.writer.buf) == PackAll(s.sent)
        else s.fed + s.wire <= PackAll(s.sent))
  }

  lemma SendKeeps(s: LinkState, e: LinkEvent, max: nat)
    requires Inv(s, max) && Enabled(s, e, max) && e.Send?
    ensures Inv(Apply(s, e, max), max)
  {
    hide Parse, Pack, FirstFrame, Flatten, Write, Consistent, PackAll;
    WriteConserves(s.writer, Pack(e.m), e.os);
    PackAllSnoc(s.sent, e.m);
    var (w, taken) := Write(s.writer, Pack(e.m), e.os);
    Regroup(s.fed, s.wire, taken, Flatten(w.buf), Flatten(s.writer.buf), Pack(e.m));
  }

  lemma Regroup(fed: seq<Byte>, wire: seq<Byte>, taken: seq<Byte>, left: seq<Byte>, held: seq<Byte>, more: seq<Byte>)
    requires taken + left == held + more
    ensures fed + (wire + taken) + left == fed + wire + held + more
  {
    assert fed + (wire + taken) + left == fed + wire + (taken + left);
  }

  lemma RetryKeeps(s: LinkState, e: LinkEvent, max: nat)
    requires Inv(s, max) && Enabled(s, e, max) && e.Retry?
    ensures Inv(Apply(s, e, max), max)
  {
    hide Parse, FirstFrame, Flatten, Transmit, Consistent;
    TransmitConserves(s.writer, e.os);
    var (w, taken) := Transmit(s.writer, e.os);
    if w.connected {
      assert s.fed + (s.wire + taken) + Flatten(w.buf) == s.fed + s.wire + (taken + Flatten(w.buf));
    } else {
      assert s.fed + (s.wire + taken) == s.fed + s.wire;
    }
  }

  lemma ReceiveKeeps(s: LinkState, e: LinkEvent, max: nat)
    requires Inv(s, max) && Enabled(s, e, max) && e.Receive?
    ensures Inv(Apply(s, e, max), max)
  {
    hide Parse, FirstFrame, Flatten, Consistent, Resume;
    var s' := Apply(s, e, max);
    ParseAppend(s.fed, s.wire[..e.n], max);
    assert s.wire == s.wire[..e.n] + s.wire[e.n..];
    assert s'.fed + s'.wire == s.fed + s.wire;
  }

  lemma StepKeeps(s: LinkState, e: LinkEvent, max: nat)
    requires Inv(s, max) && Enabled(s, e, max)
    ensures Inv(Apply(s, e, max), max)
  {
    match e
    case Send(_, _) => SendKeeps(s, e, max);
    case Retry(_) => RetryKeeps(s, e, max);
    case Receive(_) => ReceiveKeeps(s, e, max);
  }

  predicate CanRun(s: LinkState, events: seq<LinkEvent>, max: nat)
    decreases |events|
  {
    events == [] || (Enabled(s, events[0], max) && CanRun(Apply(s, events[0], max), events[1..], max))
  }

  function Run(s: LinkState, events: seq<LinkEvent>, max: nat): LinkState
    requires CanRun(s, events, max)
    decreases |events|
  {
    if events == [] then s else Run(Apply(s, events[0], max), events[1..], max)
  }

  lemma {:induction false} RunKeeps(s: LinkState, events: seq<LinkEvent>, max: nat)
    requires Inv(s, max) && CanRun(s, events, max)
    ensures Inv(Run(s, events, max), max)
    decreases |events|
  {
    if events != [] {
      StepKeeps(s, events[0], max);
      RunKeeps(Apply(s, events[0], max), events[1..], max);
    }
  }

  const IDLE := LinkState([], Writer([], 0, false, true), [], [], Parsed([], [], Open))

  /**
   In every run, whatever the operating system accepts and however the bytes arrive: the reader
   never faults, what it has routed is the beginning of what was sent, and once nothing is buffered
   or in the pipe it has routed all of it.
   */
  lemma RoutedIsPrefixOfSent(events: seq<LinkEvent>, max: nat)
    requires CanRun(IDLE, events, max)
    ensures var s := Run(IDLE, events, max);
            && s.reader.status.Open?
            && s.reader.msgs <= WireAll(s.sent)
            && (s.writer.connected ==>
                  && s.writer.len == |Flatten(s.writer.buf)|
                  && (s.writer.registered <==> s.writer.buf != [])
                  && (s.wire == [] && s.writer.buf == [] ==> s.reader == Parsed(WireAll(s.sent), [], Open)))
  {
    RunKeeps(IDLE, events, max);
    var s := Run(IDLE, events, max);
    assert s.fed <= s.fed + s.wire <= PackAll(s.sent);
    PrefixParsesToPrefix(s.sent, s.fed, max);
    if s.writer.connected && s.wire == [] && s.writer.buf == [] {
      assert s.fed + s.wire + Flatten(s.writer.buf) == s.fed;
    }
  }
}
