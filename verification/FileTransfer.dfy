/**
 The windowed file sender of `FileService`. Everything that happens while the lock of one stream's
 `FileStreamState` is held is one step; chunks and acknowledgements travel by themselves.
 */
module FileTransfer {
  import opened Seqs
  import opened Frames

  type Positive = n: nat | n > 0 witness 1

  /** `window_size_bytes` and `IO_SIZE`. `fp.read` returns `IO_SIZE` bytes until the file ends, then none. */
  datatype Config = Config(window: Positive, ioSize: Positive)

  /** The `Sender` made for one call of `fetch`. */
  type Sender = nat

  datatype Job = Job(sender: Sender, rest: seq<Byte>)

  datatype Msg = Chunk(to: Sender, data: seq<Byte>) | Close(to: Sender)

  /** What the lock protects, and what has been sent and not yet received. */
  datatype State = State(jobs: seq<Job>, unacked: nat, wire: seq<Msg>)

  // ---------------------------------------------------------------- the sender

  /** One turn of the scheduling loop. */
  function Pump(c: Config, s: State): State
    requires s.jobs != []
  {
    var job := s.jobs[0];
    var n := Min(c.ioSize, |job.rest|);
    if n > 0 then
      State([job.(rest := job.rest[n..])] + s.jobs[1..], s.unacked + n, s.wire + [Chunk(job.sender, job.rest[..n])])
    else
      State(s.jobs[1..], s.unacked, s.wire + [Close(job.sender)])
  }

  function Work(jobs: seq<Job>): nat
  {
    if jobs == [] then 0 else |jobs[0].rest| + 1 + Work(jobs[1..])
  }

  predicate Pumps(c: Config, s: State)
  {
    s.jobs != [] && s.unacked < c.window
  }

  lemma PumpWorks(c: Config, s: State)
    requires s.jobs != []
    ensures Work(Pump(c, s).jobs) < Work(s.jobs)
  {
  }

  function Schedule(c: Config, s: State): State
    decreases Work(s.jobs)
  {
    if Pumps(c, s) then PumpWorks(c, s); Schedule(c, Pump(c, s)) else s
  }

  /** `unacked - min(unacked, size)`; a negative size, which nothing refuses, adds to what is unacknowledged. */
  function Deduct(unacked: nat, size: int): nat
  {
    if size <= unacked then unacked - size else 0
  }

  function Acknowledge(c: Config, s: State, size: int): State
  {
    Schedule(c, s.(unacked := Deduct(s.unacked, size)))
  }

  function Fetch(c: Config, s: State, x: Sender, file: seq<Byte>): State
  {
    Schedule(c, s.(jobs := s.jobs + [Job(x, file)]))
  }

  /** `on_shutdown` closes every sender, the newest first. */
  function Closes(jobs: seq<Job>): seq<Msg>
  {
    if jobs == [] then [] else Closes(jobs[1..]) + [Close(jobs[0].sender)]
  }

  function Shutdown(s: State): State
  {
    State([], s.unacked, s.wire + Closes(s.jobs))
  }

  class FileStreamState {
    var jobs: seq<Job>
    var unacked: nat
    var wire: seq<Msg>

    ghost function Value(): State
      reads this
    {
      State(jobs, unacked, wire)
    }

    method SchedulePending(c: Config)
      modifies this
      ensures Value() == old(Schedule(c, Value()))
      ensures jobs == [] || unacked >= c.window
    {
      while jobs != [] && unacked < c.window
        invariant Schedule(c, Value()) == old(Schedule(c, Value()))
        decreases Work(jobs)
      {
        PumpWorks(c, Value());
        var job := jobs[0];
        var n := Min(c.ioSize, |job.rest|);
        var s := job.rest[..n];
        jobs := [job.(rest := job.rest[n..])] + jobs[1..];
        if s != [] {
          unacked := unacked + |s|;
          wire := wire + [Chunk(job.sender, s)];
        } else {
          wire := wire + [Close(job.sender)];
          jobs := jobs[1..];
        }
      }
    }

    method FetchFile(c: Config, x: Sender, file: seq<Byte>)
      modifies this
      ensures Value() == old(Fetch(c, Value(), x, file))
    {
      jobs := jobs + [Job(x, file)];
      SchedulePending(c);
    }

    method OnAcknowledge(c: Config, size: int)
      modifies this
      ensures Value() == old(Acknowledge(c, Value(), size))
    {
      unacked := unacked - (if unacked < size then unacked else size);
      SchedulePending(c);
    }

    method OnShutdown()
      modifies this
      ensures Value() == old(Shutdown(Value()))
    {
      ghost var before := wire;
      while jobs != []
        invariant unacked == old(unacked) && wire + Closes(jobs) == before + Closes(old(jobs))
        decreases |jobs|
      {
        ClosesLast(jobs);
        wire := wire + [Close(jobs[|jobs| - 1].sender)];
        jobs := jobs[..|jobs| - 1];
      }
      assert wire == wire + [] && before + Closes(old(jobs)) == old(wire + Closes(jobs));
    }
  }

  lemma {:induction false} ClosesLast(jobs: seq<Job>)
    requires jobs != []
    ensures Closes(jobs) == [Close(jobs[|jobs| - 1].sender)] + Closes(jobs[..|jobs| - 1])
  {
    if |jobs| > 1 {
      ClosesLast(jobs[1..]);
      assert jobs[1..][..|jobs| - 2] == jobs[..|jobs| - 1][1..];
    }
  }

  // ---------------------------------------------------------------- the whole transfer

  /** An acknowledgement by `get`. */
  datatype Reply = Reply(from: Sender, size: nat)

  /**
   `got` is what was delivered to each requester, `acks` the acknowledgements on their way back. `files` and
   `order` record the calls of `fetch`; `down` says that the service has been shut down. The requesters in
   `lost` are gone, while the stream on the way to them lives on: they acknowledge nothing any more, and `leaked`
   is how many bytes will therefore never be acknowledged. Of the acknowledgements, `honest` says that all came
   from `get`, for a chunk that arrived; `positive` that none had a negative size; and `mild` that none raised
   the unacknowledged count to the bound or above.
   */
  datatype Sys = Sys(
    s: State,
    got: map<Sender, seq<Msg>>,
    acks: seq<Reply>,
    files: map<Sender, seq<Byte>>,
    order: seq<Sender>,
    lost: set<Sender>,
    leaked: nat,
    down: bool,
    honest: bool,
    positive: bool,
    mild: bool)

  datatype Event =
    | Request(x: Sender, file: seq<Byte>)  // `fetch` is called
    | Receive(i: nat)                      // a message reaches its requester, which acknowledges a chunk
    | Ack(i: nat)                          // an acknowledgement reaches the service
    | Forge(size: int)                     // somebody acknowledges what was not received
    | Lose(x: Sender)                      // the requester is gone
    | Drop(i: nat)                         // an acknowledgement of a lost requester gets lost too
    | Stop                                 // `on_shutdown`

  predicate Enabled(sys: Sys, e: Event)
  {
    match e
    case Request(x, _) => x !in sys.files
    // Messages to one requester stay in order; those to different ones may overtake each other.
    case Receive(i) =>
      && i < |sys.s.wire| && sys.s.wire[i].to in sys.got
      && forall k :: 0 <= k < i ==> sys.s.wire[k].to != sys.s.wire[i].to
    case Ack(i) => i < |sys.acks|
    // Before the first `fetch` there is nothing to look up for the stream, and KeyError is raised.
    case Forge(_) => sys.order != []
    case Lose(x) => x in sys.files
    case Drop(i) => i < |sys.acks| && sys.acks[i].from in sys.lost
    case Stop => true
  }

  function Apply(c: Config, sys: Sys, e: Event): Sys
    requires Enabled(sys, e)
  {
    match e
    case Request(x, file) =>
      sys.(s := Fetch(c, sys.s, x, file), got := sys.got[x := []],
           files := sys.files[x := file], order := sys.order + [x])
    case Receive(i) =>
      var m := sys.s.wire[i];
      sys.(s := sys.s.(wire := RemoveAt(sys.s.wire, i)), got := sys.got[m.to := sys.got[m.to] + [m]],
           acks := if m.Chunk? && m.to !in sys.lost then sys.acks + [Reply(m.to, |m.data|)] else sys.acks,
           leaked := if m.Chunk? && m.to in sys.lost then sys.leaked + |m.data| else sys.leaked)
    case Ack(i) => sys.(s := Acknowledge(c, sys.s, sys.acks[i].size), acks := RemoveAt(sys.acks, i))
    case Forge(size) =>
      sys.(s := Acknowledge(c, sys.s, size), honest := false,
           positive := sys.positive && size >= 0, mild := sys.mild && Mild(c, sys, size))
    case Lose(x) => sys.(lost := sys.lost + {x})
    case Drop(i) => sys.(acks := RemoveAt(sys.acks, i), leaked := sys.leaked + sys.acks[i].size)
    case Stop => sys.(s := Shutdown(sys.s), down := true)
  }

  /** The acknowledgement does not raise the unacknowledged count to `window + ioSize`. */
  predicate Mild(c: Config, sys: Sys, size: int)
  {
    sys.s.unacked - size < c.window + c.ioSize
  }

  /** The messages to `x`. */
  function For(ms: seq<Msg>, x: Sender): seq<Msg>
  {
    if ms == [] then [] else For(ms[..|ms| - 1], x) + (if ms[|ms| - 1].to == x then [ms[|ms| - 1]] else [])
  }

  /** The bytes in the chunks. */
  function Data(ms: seq<Msg>): seq<Byte>
  {
    if ms == [] then [] else Data(ms[..|ms| - 1]) + Bytes(ms[|ms| - 1])
  }

  /** How many bytes are in the chunks. */
  function Volume(ms: seq<Msg>): nat
  {
    if ms == [] then 0 else Volume(ms[..|ms| - 1]) + |Bytes(ms[|ms| - 1])|
  }

  function Bytes(m: Msg): seq<Byte>
  {
    if m.Chunk? then m.data else []
  }

  function Sum(rs: seq<Reply>): nat
  {
    if rs == [] then 0 else Sum(rs[..|rs| - 1]) + rs[|rs| - 1].size
  }

  /** `t` is chunks, which with `rest` make up `file`. */
  ghost predicate Partway(t: seq<Msg>, file: seq<Byte>, rest: seq<Byte>)
  {
    (forall k :: 0 <= k < |t| ==> t[k].Chunk?) && Data(t) + rest == file
  }

  /** `t` is chunks holding a beginning of `file`, or after a shutdown part of it, and then a close. */
  ghost predicate Finished(t: seq<Msg>, file: seq<Byte>, down: bool)
  {
    && t != [] && t[|t| - 1].Close?
    && (forall k :: 0 <= k < |t| - 1 ==> t[k].Chunk?)
    && Data(t) <= file && (!down ==> Data(t) == file)
  }

  predicate Waiting(jobs: seq<Job>, x: Sender)
  {
    exists k :: 0 <= k < |jobs| && jobs[k].sender == x
  }

  /** All that was ever sent to `x`. */
  function Sent(sys: Sys, x: Sender): seq<Msg>
    requires x in sys.got
  {
    sys.got[x] + For(sys.s.wire, x)
  }

  ghost predicate Delivers(sys: Sys, x: Sender)
  {
    && x in sys.got && x in sys.files
    && (forall k :: 0 <= k < |sys.s.jobs| && sys.s.jobs[k].sender == x ==>
          Partway(Sent(sys, x), sys.files[x], sys.s.jobs[k].rest))
    && (!Waiting(sys.s.jobs, x) ==> Finished(Sent(sys, x), sys.files[x], sys.down))
  }

  /** The jobs are the last requests made, in order, and only the first has been begun. */
  ghost predicate InOrder(sys: Sys)
  {
    && Distinct(sys.order) && (forall x :: x in sys.order <==> x in sys.files)
    && |sys.s.jobs| <= |sys.order|
    && (var skip := |sys.order| - |sys.s.jobs|;
        forall k :: 0 <= k < |sys.s.jobs| ==>
          && sys.s.jobs[k].sender == sys.order[skip + k]
          && (k > 0 && sys.s.jobs[k].sender in sys.got ==> Sent(sys, sys.s.jobs[k].sender) == []))
  }

  ghost predicate Balanced(sys: Sys)
  {
    && (sys.positive ==> sys.s.unacked <= Volume(sys.s.wire) + Sum(sys.acks) + sys.leaked)
    && (sys.honest ==> sys.s.unacked == Volume(sys.s.wire) + Sum(sys.acks) + sys.leaked)
  }

  /** What holds before the scheduling loop as well as after it. */
  ghost predicate Core(c: Config, sys: Sys)
  {
    && sys.got.Keys == sys.files.Keys
    && (forall k :: 0 <= k < |sys.s.wire| ==> sys.s.wire[k].to in sys.got)
    && InOrder(sys)
    && (forall x {:trigger Delivers(sys, x)} :: x in sys.files ==> Delivers(sys, x))
    && Balanced(sys)
    && (sys.honest ==> sys.positive) && (sys.positive ==> sys.mild)
    && (sys.mild ==> sys.s.unacked < c.window + c.ioSize)
  }

  ghost predicate Inv(c: Config, sys: Sys)
  {
    Core(c, sys) && (sys.s.jobs != [] ==> sys.s.unacked >= c.window)
  }

  // ---------------------------------------------------------------- sequences of messages

  lemma ForSnoc(ms: seq<Msg>, m: Msg, x: Sender)
    ensures For(ms + [m], x) == For(ms, x) + (if m.to == x then [m] else [])
  {
    assert (ms + [m])[..|ms|] == ms;
  }

  lemma DataSnoc(ms: seq<Msg>, m: Msg)
    ensures Data(ms + [m]) == Data(ms) + Bytes(m)
  {
    assert (ms + [m])[..|ms|] == ms;
  }

  lemma SumSnoc(rs: seq<Reply>, r: Reply)
    ensures Sum(rs + [r]) == Sum(rs) + r.size
  {
    assert (rs + [r])[..|rs|] == rs;
  }

  lemma ForEmpty(x: Sender)
    ensures For([], x) == [] && forall ms: seq<Msg> :: ms + For([], x) == ms
  {
  }

  lemma {:induction false} ForConcat(a: seq<Msg>, b: seq<Msg>, x: Sender)
    ensures For(a + b, x) == For(a, x) + For(b, x)
    decreases |b|
  {
    hide For;
    if b == [] {
      ForEmpty(x);
      assert a + b == a;
    } else {
      var init, m := b[..|b| - 1], b[|b| - 1];
      ForConcat(a, init, x);
      ForSnoc(a + init, m, x);
      ForSnoc(init, m, x);
      assert a + b == a + init + [m] && b == init + [m];
    }
  }

  /** The first message to `x`, taken out. */
  lemma ForFirst(ms: seq<Msg>, i: nat, x: Sender)
    requires i < |ms| && forall k :: 0 <= k < i ==> ms[k].to != ms[i].to
    ensures For(ms, x) == (if ms[i].to == x then [ms[i]] else []) + For(RemoveAt(ms, i), x)
  {
    var before, after := ms[..i], ms[i + 1..];
    assert ms == before + [ms[i]] + after && RemoveAt(ms, i) == before + after;
    ForConcat(before + [ms[i]], after, x);
    ForSnoc(before, ms[i], x);
    ForConcat(before, after, x);
    if ms[i].to == x {
      ForNone(before, x);
    }
  }

  lemma {:induction false} ForNone(ms: seq<Msg>, x: Sender)
    ensures For(ms, x) == [] <==> forall m :: m in ms ==> m.to != x
    decreases |ms|
  {
    if ms != [] {
      ForNone(ms[..|ms| - 1], x);
      assert ms == ms[..|ms| - 1] + [ms[|ms| - 1]];
    }
  }

  lemma VolumeSnoc(ms: seq<Msg>, m: Msg)
    ensures Volume(ms + [m]) == Volume(ms) + |Bytes(m)|
  {
    assert (ms + [m])[..|ms|] == ms;
  }

  lemma VolumeRemove(ms: seq<Msg>, i: nat)
    requires i < |ms|
    ensures Volume(ms) == Volume(RemoveAt(ms, i)) + |Bytes(ms[i])|
  {
    hide Volume, Bytes;
    assert ms == ms[..i] + [ms[i]] + ms[i + 1..];
    VolumeConcat(ms[..i] + [ms[i]], ms[i + 1..]);
    VolumeSnoc(ms[..i], ms[i]);
    VolumeConcat(ms[..i], ms[i + 1..]);
  }

  lemma {:induction false} SumRemove(rs: seq<Reply>, i: nat)
    requires i < |rs|
    ensures Sum(rs) == Sum(RemoveAt(rs, i)) + rs[i].size
    decreases |rs|
  {
    var last := |rs| - 1;
    if i == last {
      assert RemoveAt(rs, i) == rs[..last];
    } else {
      SumRemove(rs[..last], i);
      assert RemoveAt(rs, i) == RemoveAt(rs[..last], i) + [rs[last]];
      SumSnoc(RemoveAt(rs[..last], i), rs[last]);
    }
  }

  // ---------------------------------------------------------------- the scheduling loop

  lemma PartwayOn(t: seq<Msg>, file: seq<Byte>, rest: seq<Byte>, x: Sender, n: nat)
    requires Partway(t, file, rest) && n <= |rest|
    ensures Partway(t + [Chunk(x, rest[..n])], file, rest[n..])
  {
    hide Data;
    DataSnoc(t, Chunk(x, rest[..n]));
    assert rest == rest[..n] + rest[n..];
    assert Data(t) + rest[..n] + rest[n..] == file;
  }

  lemma PartwayEnds(t: seq<Msg>, file: seq<Byte>, rest: seq<Byte>, x: Sender, down: bool)
    requires Partway(t, file, rest) && (rest != [] ==> down)
    ensures Finished(t + [Close(x)], file, down)
  {
    DataSnoc(t, Close(x));
  }

  /** What the loop sends, and to whom. */
  function Next(c: Config, s: State): Msg
    requires s.jobs != []
  {
    var job := s.jobs[0];
    if job.rest == [] then Close(job.sender) else Chunk(job.sender, job.rest[..Min(c.ioSize, |job.rest|)])
  }

  lemma PumpSends(c: Config, sys: Sys, x: Sender)
    requires sys.s.jobs != [] && x in sys.got
    ensures var sys' := sys.(s := Pump(c, sys.s)); var m := Next(c, sys.s);
            && sys'.s.wire == sys.s.wire + [m] && m.to == sys.s.jobs[0].sender
            && Sent(sys', x) == if m.to == x then Sent(sys, x) + [m] else Sent(sys, x)
  {
    hide For;
    var m := Next(c, sys.s);
    ForSnoc(sys.s.wire, m, x);
    assert sys.got[x] + (For(sys.s.wire, x) + [m]) == Sent(sys, x) + [m];
  }

  lemma OthersWait(sys: Sys, k: nat)
    requires InOrder(sys) && 1 <= k < |sys.s.jobs|
    ensures sys.s.jobs[k].sender != sys.s.jobs[0].sender
  {
    var skip := |sys.order| - |sys.s.jobs|;
    assert sys.s.jobs[k].sender == sys.order[skip + k] && sys.s.jobs[0].sender == sys.order[skip + 0];
  }

  lemma PumpAdvances(c: Config, sys: Sys)
    requires Core(c, sys) && Pumps(c, sys.s) && sys.s.jobs[0].rest != []
    ensures Delivers(sys.(s := Pump(c, sys.s)), sys.s.jobs[0].sender)
  {
    hide Partway, Finished, For, Data, Sent, InOrder, Volume, Sum;
    var sys', job := sys.(s := Pump(c, sys.s)), sys.s.jobs[0];
    var x, n := job.sender, Min(c.ioSize, |job.rest|);
    HeadIsKnown(sys);
    assert Delivers(sys, x);
    PumpSends(c, sys, x);
    PartwayOn(Sent(sys, x), sys.files[x], job.rest, x, n);
    assert sys'.s.jobs[0] == Job(x, job.rest[n..]);
    forall k | 1 <= k < |sys'.s.jobs| ensures sys'.s.jobs[k].sender != x {
      OthersWait(sys, k);
    }
  }

  lemma PumpFinishes(c: Config, sys: Sys)
    requires Core(c, sys) && Pumps(c, sys.s) && sys.s.jobs[0].rest == []
    ensures Delivers(sys.(s := Pump(c, sys.s)), sys.s.jobs[0].sender)
  {
    hide Partway, Finished, For, Data, Sent, InOrder, Volume, Sum;
    var sys', job := sys.(s := Pump(c, sys.s)), sys.s.jobs[0];
    var x := job.sender;
    HeadIsKnown(sys);
    assert Delivers(sys, x);
    PumpSends(c, sys, x);
    PartwayEnds(Sent(sys, x), sys.files[x], [], x, sys.down);
    forall k | 0 <= k < |sys'.s.jobs| ensures sys'.s.jobs[k].sender != x {
      OthersWait(sys, k + 1);
    }
  }

  lemma PumpLeavesOthers(c: Config, sys: Sys, x: Sender)
    requires Core(c, sys) && Pumps(c, sys.s) && x in sys.files && x != sys.s.jobs[0].sender
    ensures Delivers(sys.(s := Pump(c, sys.s)), x)
  {
    hide Partway, Finished, For, Data, Sent, InOrder, Next;
    var sys' := sys.(s := Pump(c, sys.s));
    assert Delivers(sys, x);
    PumpSends(c, sys, x);
    var done := |sys.s.jobs| - |sys'.s.jobs|;
    assert forall k :: 1 - done <= k < |sys'.s.jobs| ==> sys'.s.jobs[k] == sys.s.jobs[k + done];
    if Waiting(sys.s.jobs, x) {
      var k :| 0 <= k < |sys.s.jobs| && sys.s.jobs[k].sender == x;
      assert sys'.s.jobs[k - done].sender == x;
    }
  }

  lemma PumpKeepsOrder(c: Config, sys: Sys)
    requires Core(c, sys) && Pumps(c, sys.s)
    ensures InOrder(sys.(s := Pump(c, sys.s)))
  {
    hide Partway, Finished, For, Data, Sent, Delivers;
    var sys' := sys.(s := Pump(c, sys.s));
    var skip, skip' := |sys.order| - |sys.s.jobs|, |sys.order| - |sys'.s.jobs|;
    forall k | 0 <= k < |sys'.s.jobs|
      ensures sys'.s.jobs[k].sender == sys.order[skip' + k]
      ensures k > 0 && sys'.s.jobs[k].sender in sys.got ==> Sent(sys', sys'.s.jobs[k].sender) == []
    {
      var j := k + skip' - skip;
      assert sys'.s.jobs[k].sender == sys.s.jobs[j].sender == sys.order[skip + j];
      var x := sys.s.jobs[j].sender;
      if k > 0 && x in sys.got {
        PumpSends(c, sys, x);
        OthersWait(sys, j);
      }
    }
  }

  lemma PumpKeeps(c: Config, sys: Sys)
    requires Core(c, sys) && Pumps(c, sys.s)
    ensures Core(c, sys.(s := Pump(c, sys.s)))
  {
    hide InOrder, Delivers, Data, For;
    var x := sys.s.jobs[0].sender;
    assert x in sys.files by { HeadIsKnown(sys); }
    PumpSends(c, sys, x);
    VolumeSnoc(sys.s.wire, Next(c, sys.s));
    PumpKeepsOrder(c, sys);
    forall y | y in sys.files ensures Delivers(sys.(s := Pump(c, sys.s)), y) {
      if y == x {
        if sys.s.jobs[0].rest == [] {
          PumpFinishes(c, sys);
        } else {
          PumpAdvances(c, sys);
        }
      } else {
        PumpLeavesOthers(c, sys, y);
      }
    }
  }

  lemma HeadIsKnown(sys: Sys)
    requires InOrder(sys) && sys.s.jobs != []
    ensures sys.s.jobs[0].sender in sys.files
  {
    assert sys.s.jobs[0].sender == sys.order[|sys.order| - |sys.s.jobs| + 0];
  }

  lemma {:induction false} ScheduleKeeps(c: Config, sys: Sys)
    requires Core(c, sys)
    ensures Inv(c, sys.(s := Schedule(c, sys.s)))
    decreases Work(sys.s.jobs)
  {
    if Pumps(c, sys.s) {
      hide Core;
      PumpWorks(c, sys.s);
      PumpKeeps(c, sys);
      ScheduleKeeps(c, sys.(s := Pump(c, sys.s)));
    } else {
      assert sys.(s := sys.s) == sys;
    }
  }

  // ---------------------------------------------------------------- runs

  /** `fetch` before the scheduling loop. */
  function Requested(sys: Sys, x: Sender, file: seq<Byte>): Sys
  {
    sys.(s := sys.s.(jobs := sys.s.jobs + [Job(x, file)]), got := sys.got[x := []],
         files := sys.files[x := file], order := sys.order + [x])
  }

  lemma RequestedCore(c: Config, sys: Sys, x: Sender, file: seq<Byte>)
    requires Inv(c, sys) && Enabled(sys, Request(x, file))
    ensures Core(c, Requested(sys, x, file)) && Sent(Requested(sys, x, file), x) == []
  {
    var asked := Requested(sys, x, file);
    hide Delivers, InOrder, For, Volume, Sum;
    assert Sent(asked, x) == [] by {
      ForNone(sys.s.wire, x);
    }
    forall y | y in asked.files ensures Delivers(asked, y) {
      if y == x {
        NewRequestDelivers(c, sys, asked, x, file);
      } else {
        OldRequestDelivers(c, sys, asked, x, file, y);
      }
    }
    RequestInOrder(sys, asked, x, file);
  }

  lemma RequestKeeps(c: Config, sys: Sys, x: Sender, file: seq<Byte>)
    requires Inv(c, sys) && Enabled(sys, Request(x, file))
    ensures Inv(c, Apply(c, sys, Request(x, file)))
  {
    hide Core;
    RequestedCore(c, sys, x, file);
    ScheduleKeeps(c, Requested(sys, x, file));
    var asked := Requested(sys, x, file);
    assert Apply(c, sys, Request(x, file)) == asked.(s := Schedule(c, asked.s));
  }

  ghost predicate Asked(sys: Sys, asked: Sys, x: Sender, file: seq<Byte>)
  {
    && x !in sys.files
    && asked == Requested(sys, x, file)
  }

  lemma NewRequestDelivers(c: Config, sys: Sys, asked: Sys, x: Sender, file: seq<Byte>)
    requires Inv(c, sys) && Asked(sys, asked, x, file) && Sent(asked, x) == []
    ensures Delivers(asked, x)
  {
    hide For, Data, Finished, Volume, Sum, Sent;
    var n := |sys.s.jobs|;
    assert asked.s.jobs[n].sender == x;
    forall k | 0 <= k < n ensures asked.s.jobs[k].sender != x {
      assert sys.s.jobs[k].sender == sys.order[|sys.order| - n + k];
    }
    NoData();
    assert Partway([], file, file) by {
      assert [] + file == file;
    }
    assert forall k :: 0 <= k < |asked.s.jobs| && asked.s.jobs[k].sender == x ==> asked.s.jobs[k].rest == file;
  }

  lemma OldRequestDelivers(c: Config, sys: Sys, asked: Sys, x: Sender, file: seq<Byte>, y: Sender)
    requires Inv(c, sys) && Asked(sys, asked, x, file) && y in sys.files
    ensures Delivers(asked, y)
  {
    hide For, Data, Finished, Partway, Volume, Sum;
    assert Delivers(sys, y) && Sent(asked, y) == Sent(sys, y);
    if Waiting(sys.s.jobs, y) {
      var k :| 0 <= k < |sys.s.jobs| && sys.s.jobs[k].sender == y;
      assert asked.s.jobs[k].sender == y;
    }
  }

  lemma NoData()
    ensures Data([]) == []
  {
  }

  lemma RequestInOrder(sys: Sys, asked: Sys, x: Sender, file: seq<Byte>)
    requires InOrder(sys) && Asked(sys, asked, x, file) && Sent(asked, x) == []
    requires sys.got.Keys == sys.files.Keys
    ensures InOrder(asked)
  {
    hide For;
    DistinctConcat(sys.order, [x]);
    var skip := |sys.order| - |sys.s.jobs|;
    forall k | 0 <= k < |asked.s.jobs|
      ensures asked.s.jobs[k].sender == asked.order[skip + k]
      ensures k > 0 && asked.s.jobs[k].sender in asked.got ==> Sent(asked, asked.s.jobs[k].sender) == []
    {
      if k < |sys.s.jobs| {
        assert sys.s.jobs[k].sender == sys.order[skip + k];
        assert sys.order[skip + k] in sys.order;
      }
    }
  }

  /** A step that leaves the jobs and what was sent to each requester alone. */
  lemma SameTransfer(sys: Sys, sys': Sys)
    requires InOrder(sys) && (forall x :: x in sys.files ==> Delivers(sys, x))
    requires sys'.s.jobs == sys.s.jobs && sys'.files == sys.files && sys'.order == sys.order && sys'.down == sys.down
    requires sys'.got.Keys == sys.got.Keys && forall x :: x in sys.got ==> Sent(sys', x) == Sent(sys, x)
    ensures InOrder(sys') && (forall x :: x in sys'.files ==> Delivers(sys', x))
  {
    hide Sent, Partway, Finished;
    forall x | x in sys'.files ensures Delivers(sys', x) {
      assert Delivers(sys, x);
    }
  }

  lemma ReceiveKeeps(c: Config, sys: Sys, i: nat)
    requires Inv(c, sys) && Enabled(sys, Receive(i))
    ensures Inv(c, Apply(c, sys, Receive(i)))
  {
    hide Delivers, InOrder, For, Volume, Sum;
    var sys' := Apply(c, sys, Receive(i));
    var m := sys.s.wire[i];
    VolumeRemove(sys.s.wire, i);
    SumSnoc(sys.acks, Reply(m.to, |Bytes(m)|));
    forall x | x in sys.got ensures Sent(sys', x) == Sent(sys, x) {
      ForFirst(sys.s.wire, i, x);
      assert sys.got[x] + ([m] + For(sys'.s.wire, x)) == sys.got[x] + [m] + For(sys'.s.wire, x);
    }
    SameTransfer(sys, sys');
  }

  /** `acknowledge` before the scheduling loop. */
  function Deducted(c: Config, sys: Sys, size: int, acks: seq<Reply>, honest: bool): Sys
  {
    sys.(s := sys.s.(unacked := Deduct(sys.s.unacked, size)), acks := acks, honest := honest,
         positive := sys.positive && size >= 0, mild := sys.mild && Mild(c, sys, size))
  }

  lemma DeductedCore(c: Config, sys: Sys, size: int, acks: seq<Reply>, honest: bool)
    requires Inv(c, sys) && (size >= 0 ==> Sum(sys.acks) <= Sum(acks) + size)
    requires honest ==> sys.honest && size >= 0 && Sum(sys.acks) == Sum(acks) + size
    ensures Core(c, Deducted(c, sys, size, acks, honest))
  {
    hide Delivers, InOrder, For, Volume, Sum;
    SameTransfer(sys, Deducted(c, sys, size, acks, honest));
  }

  lemma AcknowledgeKeeps(c: Config, sys: Sys, size: int, acks: seq<Reply>, honest: bool)
    requires Inv(c, sys) && (size >= 0 ==> Sum(sys.acks) <= Sum(acks) + size)
    requires honest ==> sys.honest && size >= 0 && Sum(sys.acks) == Sum(acks) + size
    ensures Inv(c, Acknowledged(c, sys, size, acks, honest))
  {
    hide Core, Sum;
    DeductedCore(c, sys, size, acks, honest);
    var acked := Deducted(c, sys, size, acks, honest);
    ScheduleKeeps(c, acked);
    assert Acknowledged(c, sys, size, acks, honest) == acked.(s := Schedule(c, acked.s));
  }

  function Acknowledged(c: Config, sys: Sys, size: int, acks: seq<Reply>, honest: bool): Sys
  {
    sys.(s := Acknowledge(c, sys.s, size), acks := acks, honest := honest,
         positive := sys.positive && size >= 0, mild := sys.mild && Mild(c, sys, size))
  }

  lemma WaitingFirst(jobs: seq<Job>, x: Sender)
    requires jobs != []
    ensures Waiting(jobs, x) <==> jobs[0].sender == x || Waiting(jobs[1..], x)
  {
    assert forall k :: 0 < k < |jobs| ==> jobs[k] == jobs[1..][k - 1];
  }

  lemma {:induction false} ClosesFor(jobs: seq<Job>, x: Sender)
    requires forall i, j :: 0 <= i < j < |jobs| ==> jobs[i].sender != jobs[j].sender
    ensures For(Closes(jobs), x) == if Waiting(jobs, x) then [Close(x)] else []
    ensures Volume(Closes(jobs)) == 0
    ensures forall m :: m in Closes(jobs) ==> Waiting(jobs, m.to)
  {
    if jobs != [] {
      var rest, m := jobs[1..], Close(jobs[0].sender);
      ClosesFor(rest, x);
      ForSnoc(Closes(rest), m, x);
      VolumeSnoc(Closes(rest), m);
      WaitingFirst(jobs, x);
      forall m | m in Closes(jobs) ensures Waiting(jobs, m.to) {
        WaitingFirst(jobs, m.to);
      }
    }
  }

  lemma {:induction false} VolumeConcat(a: seq<Msg>, b: seq<Msg>)
    ensures Volume(a + b) == Volume(a) + Volume(b)
    decreases |b|
  {
    if b == [] {
      assert a + b == a;
    } else {
      var init, m := b[..|b| - 1], b[|b| - 1];
      VolumeConcat(a, init);
      VolumeSnoc(a + init, m);
      assert a + b == a + init + [m];
    }
  }

  lemma StopDelivers(sys: Sys, x: Sender)
    requires Delivers(sys, x) && InOrder(sys) && x in sys.files
    ensures Delivers(sys.(s := Shutdown(sys.s), down := true), x)
  {
    hide InOrder, For, Data, Volume, Closes;
    JobsApart(sys);
    ClosesFor(sys.s.jobs, x);
    ForConcat(sys.s.wire, Closes(sys.s.jobs), x);
    var sys' := sys.(s := Shutdown(sys.s), down := true);
    if Waiting(sys.s.jobs, x) {
      var k :| 0 <= k < |sys.s.jobs| && sys.s.jobs[k].sender == x;
      assert Sent(sys', x) == Sent(sys, x) + [Close(x)];
      PartwayEnds(Sent(sys, x), sys.files[x], sys.s.jobs[k].rest, x, true);
    } else {
      assert Sent(sys', x) == Sent(sys, x);
    }
  }

  lemma JobsApart(sys: Sys)
    requires InOrder(sys)
    ensures forall i, j :: 0 <= i < j < |sys.s.jobs| ==> sys.s.jobs[i].sender != sys.s.jobs[j].sender
    ensures forall x :: Waiting(sys.s.jobs, x) ==> x in sys.files
  {
    var skip := |sys.order| - |sys.s.jobs|;
    assert forall k :: 0 <= k < |sys.s.jobs| ==> sys.s.jobs[k].sender == sys.order[skip + k];
    forall x | Waiting(sys.s.jobs, x) ensures x in sys.files {
      var k :| 0 <= k < |sys.s.jobs| && sys.s.jobs[k].sender == x;
      assert sys.order[skip + k] == x;
    }
  }

  lemma StopKeeps(c: Config, sys: Sys)
    requires Inv(c, sys)
    ensures Inv(c, Apply(c, sys, Stop))
  {
    hide Delivers, For, Volume, InOrder, Closes;
    var sys' := Apply(c, sys, Stop);
    forall x | x in sys'.files ensures Delivers(sys', x) {
      StopDelivers(sys, x);
    }
    StopInOrder(sys);
    JobsApart(sys);
    ClosesFor(sys.s.jobs, 0);
    VolumeConcat(sys.s.wire, Closes(sys.s.jobs));
    forall k | 0 <= k < |sys'.s.wire| ensures sys'.s.wire[k].to in sys'.got {
      if k >= |sys.s.wire| {
        assert sys'.s.wire[k] in Closes(sys.s.jobs);
      }
    }
  }

  lemma StopInOrder(sys: Sys)
    requires InOrder(sys)
    ensures InOrder(sys.(s := Shutdown(sys.s), down := true))
  {
  }

  lemma StepKeeps(c: Config, sys: Sys, e: Event)
    requires Inv(c, sys) && Enabled(sys, e)
    ensures Inv(c, Apply(c, sys, e))
  {
    hide Inv, Acknowledge;
    match e
    case Request(x, file) => RequestKeeps(c, sys, x, file);
    case Receive(i) => ReceiveKeeps(c, sys, i);
    case Ack(i) =>
      SumRemove(sys.acks, i);
      AcknowledgeKeeps(c, sys, sys.acks[i].size, RemoveAt(sys.acks, i), sys.honest);
      MildAcks(c, sys, i);
      assert Apply(c, sys, e) == Acknowledged(c, sys, sys.acks[i].size, RemoveAt(sys.acks, i), sys.honest);
    case Forge(size) =>
      AcknowledgeKeeps(c, sys, size, sys.acks, false);
      assert Apply(c, sys, e) == Acknowledged(c, sys, size, sys.acks, false);
    case Lose(x) => LossKeeps(c, sys, e);
    case Drop(i) =>
      SumRemove(sys.acks, i);
      LossKeeps(c, sys, e);
    case Stop => StopKeeps(c, sys);
  }

  lemma LossKeeps(c: Config, sys: Sys, e: Event)
    requires Inv(c, sys) && Enabled(sys, e) && (e.Lose? || e.Drop?)
    requires e.Drop? ==> Sum(sys.acks) == Sum(RemoveAt(sys.acks, e.i)) + sys.acks[e.i].size
    ensures Inv(c, Apply(c, sys, e))
  {
    hide Delivers, InOrder, For, Volume, Sum;
    SameTransfer(sys, Apply(c, sys, e));
  }

  lemma MildAcks(c: Config, sys: Sys, i: nat)
    requires Inv(c, sys) && i < |sys.acks|
    ensures sys.mild ==> Mild(c, sys, sys.acks[i].size)
  {
  }

  function Start(): Sys
  {
    Sys(State([], 0, []), map[], [], map[], [], {}, 0, false, true, true, true)
  }

  predicate CanRun(c: Config, sys: Sys, events: seq<Event>)
    decreases |events|
  {
    events == [] || (Enabled(sys, events[0]) && CanRun(c, Apply(c, sys, events[0]), events[1..]))
  }

  function Run(c: Config, sys: Sys, events: seq<Event>): Sys
    requires CanRun(c, sys, events)
    decreases |events|
  {
    if events == [] then sys else Run(c, Apply(c, sys, events[0]), events[1..])
  }

  lemma {:induction false} RunKeeps(c: Config, sys: Sys, events: seq<Event>)
    requires Inv(c, sys) && CanRun(c, sys, events)
    ensures Inv(c, Run(c, sys, events))
    decreases |events|
  {
    hide Inv, Apply, Enabled;
    if events != [] {
      StepKeeps(c, sys, events[0]);
      RunKeeps(c, Apply(c, sys, events[0]), events[1..]);
    }
  }

  ghost predicate Reachable(c: Config, sys: Sys)
  {
    exists events :: CanRun(c, Start(), events) && Run(c, Start(), events) == sys
  }

  lemma ReachableInv(c: Config, sys: Sys)
    requires Reachable(c, sys)
    ensures Inv(c, sys)
  {
    var events :| CanRun(c, Start(), events) && Run(c, Start(), events) == sys;
    RunKeeps(c, Start(), events);
  }

  // ---------------------------------------------------------------- what a run guarantees

  /** The window is never exceeded by a whole chunk, and never left unused while there is something to send. */
  lemma WindowIsKeptFull(c: Config, sys: Sys)
    requires Reachable(c, sys)
    ensures sys.mild ==> sys.s.unacked < c.window + c.ioSize
    ensures sys.positive ==> sys.mild && sys.s.unacked <= Volume(sys.s.wire) + Sum(sys.acks) + sys.leaked
    ensures sys.honest ==> sys.positive && sys.s.unacked == Volume(sys.s.wire) + Sum(sys.acks) + sys.leaked
    ensures sys.s.jobs != [] ==> sys.s.unacked >= c.window
  {
    ReachableInv(c, sys);
  }

  lemma {:induction false} ScheduleStopsBelow(c: Config, s: State)
    requires s.unacked < c.window + c.ioSize
    ensures s.unacked <= Schedule(c, s).unacked < c.window + c.ioSize
    decreases Work(s.jobs)
  {
    if Pumps(c, s) {
      PumpWorks(c, s);
      ScheduleStopsBelow(c, Pump(c, s));
    }
  }

  /** An acknowledgement of any size keeps the bound exactly if it does not itself raise the count to it. */
  lemma ForgeryKeepsBoundIff(c: Config, sys: Sys, size: int)
    requires sys.s.unacked < c.window + c.ioSize && Enabled(sys, Forge(size))
    ensures Apply(c, sys, Forge(size)).s.unacked < c.window + c.ioSize <==> Mild(c, sys, size)
  {
    if Mild(c, sys, size) {
      ScheduleStopsBelow(c, sys.s.(unacked := Deduct(sys.s.unacked, size)));
    }
  }

  lemma {:induction false} ScheduleBalances(c: Config, s: State)
    ensures Schedule(c, s).unacked - Volume(Schedule(c, s).wire) == s.unacked - Volume(s.wire)
    decreases Work(s.jobs)
  {
    if Pumps(c, s) {
      VolumeSnoc(s.wire, Next(c, s));
      PumpWorks(c, s);
      ScheduleBalances(c, Pump(c, s));
    }
  }

  /** A forged acknowledgement puts the accounts out exactly when it takes something off. */
  lemma ForgeryShowsIffItCounts(c: Config, sys: Sys, size: int)
    requires Reachable(c, sys) && sys.honest && Enabled(sys, Forge(size))
    ensures var sys' := Apply(c, sys, Forge(size));
            sys'.s.unacked == Volume(sys'.s.wire) + Sum(sys'.acks) + sys'.leaked <==>
              size == 0 || (sys.s.unacked == 0 && size > 0)
  {
    hide Reachable, Schedule, Volume, Sum;
    WindowIsKeptFull(c, sys);
    ScheduleBalances(c, sys.s.(unacked := Deduct(sys.s.unacked, size)));
  }

  lemma {:induction false} DataConcat(a: seq<Msg>, b: seq<Msg>)
    ensures Data(a + b) == Data(a) + Data(b)
    decreases |b|
  {
    hide Data;
    if b == [] {
      NoData();
      assert a + b == a && Data(a) + [] == Data(a);
    } else {
      var init, m := b[..|b| - 1], b[|b| - 1];
      DataConcat(a, init);
      DataSnoc(a + init, m);
      DataSnoc(init, m);
      assert a + b == a + init + [m] && b == init + [m];
    }
  }

  /**
   What was delivered to a requester is always a beginning of its file. Nothing follows a close; a close comes
   after the whole file unless the service was shut down; and comparing lengths, as `get` does, tells which.
   */
  lemma EachGetsItsFile(c: Config, sys: Sys, x: Sender)
    requires Reachable(c, sys) && x in sys.files
    ensures x in sys.got && Data(sys.got[x]) <= sys.files[x]
    ensures forall k :: 0 <= k < |sys.got[x]| && sys.got[x][k].Close? ==>
              k == |sys.got[x]| - 1 && (!sys.down ==> Data(sys.got[x]) == sys.files[x])
    ensures |Data(sys.got[x])| == |sys.files[x]| <==> Data(sys.got[x]) == sys.files[x]
  {
    hide Data, For;
    ReachableInv(c, sys);
    assert Delivers(sys, x);
    var t := Sent(sys, x);
    var late := For(sys.s.wire, x);
    DataConcat(sys.got[x], late);
    if Waiting(sys.s.jobs, x) {
      var k :| 0 <= k < |sys.s.jobs| && sys.s.jobs[k].sender == x;
      assert Partway(t, sys.files[x], sys.s.jobs[k].rest);
    } else {
      assert Finished(t, sys.files[x], sys.down);
    }
    forall k | 0 <= k < |sys.got[x]| && sys.got[x][k].Close?
      ensures k == |sys.got[x]| - 1 && (!sys.down ==> Data(sys.got[x]) == sys.files[x])
    {
      assert t[k] == sys.got[x][k];
      assert late == [];
      assert t == sys.got[x];
    }
  }

  // ---------------------------------------------------------------- blocks

  /** If that is a chunk, it is a whole block, or the last of the file and shorter. */
  ghost predicate BlockOk(c: Config, t: seq<Msg>, file: seq<Byte>, k: nat)
    requires k < |t|
  {
    t[k].Chunk? ==>
      && 0 < |t[k].data| <= c.ioSize
      && (|t[k].data| < c.ioSize ==> |Data(t)| == |file| && (k + 1 == |t| || t[k + 1].Close?))
  }

  ghost predicate InBlocks(c: Config, t: seq<Msg>, file: seq<Byte>)
  {
    forall k :: 0 <= k < |t| ==> BlockOk(c, t, file, k)
  }

  ghost predicate AllInBlocks(c: Config, sys: Sys)
  {
    forall x :: x in sys.files ==> x in sys.got && InBlocks(c, Sent(sys, x), sys.files[x])
  }

  /** A message more changes nothing for those before it, if it is a close or they are all whole blocks. */
  lemma BlockStays(c: Config, t: seq<Msg>, file: seq<Byte>, m: Msg, k: nat)
    requires k < |t| && BlockOk(c, t, file, k) && (m.Close? || |Data(t)| < |file|)
    ensures BlockOk(c, t + [m], file, k)
  {
    hide Data;
    DataSnoc(t, m);
    assert (t + [m])[k] == t[k] && (t + [m])[k + 1] == if k + 1 == |t| then m else t[k + 1];
  }

  lemma OneMoreBlock(c: Config, t: seq<Msg>, file: seq<Byte>, rest: seq<Byte>, x: Sender)
    requires InBlocks(c, t, file) && Partway(t, file, rest) && rest != []
    ensures InBlocks(c, t + [Chunk(x, rest[..Min(c.ioSize, |rest|)])], file)
  {
    hide Data;
    var m := Chunk(x, rest[..Min(c.ioSize, |rest|)]);
    DataSnoc(t, m);
    assert |Data(t)| + |rest| == |file|;
    forall k | 0 <= k < |t + [m]| ensures BlockOk(c, t + [m], file, k) {
      if k < |t| {
        BlockStays(c, t, file, m, k);
      }
    }
  }

  lemma BlocksEnd(c: Config, t: seq<Msg>, file: seq<Byte>, x: Sender)
    requires InBlocks(c, t, file)
    ensures InBlocks(c, t + [Close(x)], file)
  {
    hide Data;
    forall k | 0 <= k < |t + [Close(x)]| ensures BlockOk(c, t + [Close(x)], file, k) {
      if k < |t| {
        BlockStays(c, t, file, Close(x), k);
      }
    }
  }

  lemma PumpKeepsBlocks(c: Config, sys: Sys)
    requires Core(c, sys) && AllInBlocks(c, sys) && Pumps(c, sys.s)
    ensures AllInBlocks(c, sys.(s := Pump(c, sys.s)))
  {
    hide For, Data, Sent, InOrder, InBlocks, Partway, Finished;
    var sys', job := sys.(s := Pump(c, sys.s)), sys.s.jobs[0];
    HeadIsKnown(sys);
    forall x | x in sys.files ensures x in sys.got && InBlocks(c, Sent(sys', x), sys.files[x]) {
      PumpSends(c, sys, x);
      if x == job.sender {
        assert Delivers(sys, x);
        if job.rest == [] {
          BlocksEnd(c, Sent(sys, x), sys.files[x], x);
        } else {
          OneMoreBlock(c, Sent(sys, x), sys.files[x], job.rest, x);
        }
      }
    }
  }

  lemma {:induction false} ScheduleKeepsBlocks(c: Config, sys: Sys)
    requires Core(c, sys) && AllInBlocks(c, sys)
    ensures AllInBlocks(c, sys.(s := Schedule(c, sys.s)))
    decreases Work(sys.s.jobs)
  {
    if Pumps(c, sys.s) {
      hide Core, AllInBlocks;
      PumpWorks(c, sys.s);
      PumpKeeps(c, sys);
      PumpKeepsBlocks(c, sys);
      ScheduleKeepsBlocks(c, sys.(s := Pump(c, sys.s)));
    } else {
      assert sys.(s := sys.s) == sys;
    }
  }

  lemma RequestKeepsBlocks(c: Config, sys: Sys, x: Sender, file: seq<Byte>)
    requires Inv(c, sys) && AllInBlocks(c, sys) && Enabled(sys, Request(x, file))
    ensures AllInBlocks(c, Apply(c, sys, Request(x, file)))
  {
    hide For, InBlocks, Core;
    RequestedCore(c, sys, x, file);
    NoBlocks(c, file);
    var asked := Requested(sys, x, file);
    assert AllInBlocks(c, asked);
    ScheduleKeepsBlocks(c, asked);
    assert Apply(c, sys, Request(x, file)) == asked.(s := Schedule(c, asked.s));
  }

  lemma NoBlocks(c: Config, file: seq<Byte>)
    ensures InBlocks(c, [], file)
  {
  }

  lemma AcknowledgeKeepsBlocks(c: Config, sys: Sys, size: int, acks: seq<Reply>, honest: bool)
    requires Inv(c, sys) && (size >= 0 ==> Sum(sys.acks) <= Sum(acks) + size)
    requires honest ==> sys.honest && size >= 0 && Sum(sys.acks) == Sum(acks) + size
    requires AllInBlocks(c, sys)
    ensures AllInBlocks(c, Acknowledged(c, sys, size, acks, honest))
  {
    hide Core, Sum, InBlocks;
    DeductedCore(c, sys, size, acks, honest);
    var acked := Deducted(c, sys, size, acks, honest);
    assert AllInBlocks(c, acked);
    ScheduleKeepsBlocks(c, acked);
    assert Acknowledged(c, sys, size, acks, honest) == acked.(s := Schedule(c, acked.s));
  }

  lemma StopKeepsBlocks(c: Config, sys: Sys)
    requires Inv(c, sys) && AllInBlocks(c, sys)
    ensures AllInBlocks(c, Apply(c, sys, Stop))
  {
    hide For, InBlocks, Closes, Data;
    JobsApart(sys);
    var sys' := Apply(c, sys, Stop);
    forall x | x in sys.files ensures x in sys.got && InBlocks(c, Sent(sys', x), sys.files[x]) {
      ClosesFor(sys.s.jobs, x);
      ForConcat(sys.s.wire, Closes(sys.s.jobs), x);
      BlocksEnd(c, Sent(sys, x), sys.files[x], x);
      assert Sent(sys', x) == if Waiting(sys.s.jobs, x) then Sent(sys, x) + [Close(x)] else Sent(sys, x);
    }
  }

  lemma ReceiveKeepsBlocks(c: Config, sys: Sys, i: nat)
    requires Inv(c, sys) && AllInBlocks(c, sys) && Enabled(sys, Receive(i))
    ensures AllInBlocks(c, Apply(c, sys, Receive(i)))
  {
    hide For, InBlocks, Delivers, InOrder;
    var sys', m := Apply(c, sys, Receive(i)), sys.s.wire[i];
    forall x | x in sys.files ensures x in sys'.got && Sent(sys', x) == Sent(sys, x) {
      ForFirst(sys.s.wire, i, x);
      assert sys.got[x] + ([m] + For(sys'.s.wire, x)) == sys.got[x] + [m] + For(sys'.s.wire, x);
    }
  }

  lemma StepKeepsBlocks(c: Config, sys: Sys, e: Event)
    requires Inv(c, sys) && AllInBlocks(c, sys) && Enabled(sys, e)
    ensures AllInBlocks(c, Apply(c, sys, e))
  {
    hide Inv, AllInBlocks, Acknowledge;
    match e
    case Request(x, file) => RequestKeepsBlocks(c, sys, x, file);
    case Receive(i) => ReceiveKeepsBlocks(c, sys, i);
    case Ack(i) =>
      SumRemove(sys.acks, i);
      AcknowledgeKeepsBlocks(c, sys, sys.acks[i].size, RemoveAt(sys.acks, i), sys.honest);
      MildAcks(c, sys, i);
      assert Apply(c, sys, e) == Acknowledged(c, sys, sys.acks[i].size, RemoveAt(sys.acks, i), sys.honest);
    case Forge(size) =>
      AcknowledgeKeepsBlocks(c, sys, size, sys.acks, false);
      assert Apply(c, sys, e) == Acknowledged(c, sys, size, sys.acks, false);
    case Lose(_) => SameSent(c, sys, Apply(c, sys, e));
    case Drop(_) => SameSent(c, sys, Apply(c, sys, e));
    case Stop => StopKeepsBlocks(c, sys);
  }

  lemma SameSent(c: Config, sys: Sys, sys': Sys)
    requires AllInBlocks(c, sys) && sys'.s.wire == sys.s.wire && sys'.got == sys.got && sys'.files == sys.files
    ensures AllInBlocks(c, sys')
  {
    hide InBlocks;
  }

  lemma {:induction false} RunKeepsBlocks(c: Config, sys: Sys, events: seq<Event>)
    requires Inv(c, sys) && AllInBlocks(c, sys) && CanRun(c, sys, events)
    ensures AllInBlocks(c, Run(c, sys, events))
    decreases |events|
  {
    hide Inv, AllInBlocks, Apply, Enabled;
    if events != [] {
      StepKeeps(c, sys, events[0]);
      StepKeepsBlocks(c, sys, events[0]);
      RunKeepsBlocks(c, Apply(c, sys, events[0]), events[1..]);
    }
  }

  /** The bytes before the k-th chunk, where those before it are whole blocks. */
  lemma {:induction false} BlocksBefore(c: Config, t: seq<Msg>, k: nat)
    requires k <= |t| && forall j :: 0 <= j < k ==> t[j].Chunk? && |t[j].data| == c.ioSize
    ensures |Data(t[..k])| == k * c.ioSize
  {
    if k > 0 {
      BlocksBefore(c, t, k - 1);
      assert t[..k][..k - 1] == t[..k - 1];
      assert k * c.ioSize == (k - 1) * c.ioSize + c.ioSize;
    }
  }

  /** What `x` gets are the blocks of `ioSize` bytes of its file, one after the other; the last may be short. */
  lemma ChunksAreBlocks(c: Config, sys: Sys, x: Sender, k: nat)
    requires Reachable(c, sys) && x in sys.files && x in sys.got && k < |sys.got[x]| && sys.got[x][k].Chunk?
    ensures var start, file := k * c.ioSize, sys.files[x];
            && start < |file|
            && sys.got[x][k].data == file[start..Min(start + c.ioSize, |file|)]
  {
    hide Data, For, InBlocks, Delivers;
    ReachableInv(c, sys);
    var events :| CanRun(c, Start(), events) && Run(c, Start(), events) == sys;
    RunKeepsBlocks(c, Start(), events);
    assert Delivers(sys, x);
    assert Sent(sys, x)[k] == sys.got[x][k];
    SentIsBeginning(sys, x);
    BlockAt(c, Sent(sys, x), sys.files[x], k);
  }

  lemma SentIsBeginning(sys: Sys, x: Sender)
    requires Delivers(sys, x)
    ensures Data(Sent(sys, x)) <= sys.files[x]
    ensures forall k :: 0 <= k < |Sent(sys, x)| - 1 ==> Sent(sys, x)[k].Chunk?
  {
    hide Data, For, Sent;
    if Waiting(sys.s.jobs, x) {
      var k :| 0 <= k < |sys.s.jobs| && sys.s.jobs[k].sender == x;
      assert Partway(Sent(sys, x), sys.files[x], sys.s.jobs[k].rest);
    }
  }

  lemma BlockAt(c: Config, t: seq<Msg>, file: seq<Byte>, k: nat)
    requires InBlocks(c, t, file) && Data(t) <= file && k < |t| && t[k].Chunk?
    requires forall j :: 0 <= j < |t| - 1 ==> t[j].Chunk?
    ensures var start := k * c.ioSize; start < |file| && t[k].data == file[start..Min(start + c.ioSize, |file|)]
  {
    WholeBefore(c, t, file, k);
    BlocksBefore(c, t, k);
    hide Data, InBlocks;
    assert BlockOk(c, t, file, k);
    BlockFrom(c, t, file, k, k * c.ioSize);
  }

  lemma WholeBefore(c: Config, t: seq<Msg>, file: seq<Byte>, k: nat)
    requires InBlocks(c, t, file) && k < |t| && t[k].Chunk?
    requires forall j :: 0 <= j < |t| - 1 ==> t[j].Chunk?
    ensures forall j :: 0 <= j < k ==> t[j].Chunk? && |t[j].data| == c.ioSize
    ensures BlockOk(c, t, file, k)
  {
    forall j | 0 <= j < k ensures t[j].Chunk? && |t[j].data| == c.ioSize {
      assert BlockOk(c, t, file, j) && t[j + 1].Chunk?;
    }
  }

  lemma BlockFrom(c: Config, t: seq<Msg>, file: seq<Byte>, k: nat, start: nat)
    requires k < |t| && BlockOk(c, t, file, k) && Data(t) <= file && t[k].Chunk? && start == |Data(t[..k])|
    requires forall j :: 0 <= j < |t| - 1 ==> t[j].Chunk?
    ensures start < |file| && t[k].data == file[start..Min(start + c.ioSize, |file|)]
  {
    hide Data;
    var data, after := t[k].data, t[k + 1..];
    assert t == t[..k] + [t[k]] + after;
    DataConcat(t[..k] + [t[k]], after);
    DataSnoc(t[..k], t[k]);
    assert Data(t) == Data(t[..k]) + data + Data(after);
    assert data == Data(t)[start..start + |data|];
    if |data| < c.ioSize {
      if k + 1 < |t| {
        assert t[k + 1].Close? && k + 1 == |t| - 1;
        assert after == [t[k + 1]];
      }
      ClosesHoldNothing(after);
    }
  }

  lemma ClosesHoldNothing(ms: seq<Msg>)
    requires |ms| <= 1 && (ms != [] ==> ms[0].Close?)
    ensures Data(ms) == []
  {
    if ms != [] {
      assert ms[..0] == [];
    }
  }

  /** Only requests up to that of the first job have had anything sent; those before it are done. */
  lemma FirstJobSeparates(sys: Sys, i: nat)
    requires InOrder(sys) && sys.got.Keys == sys.files.Keys && i < |sys.order|
    ensures sys.order[i] in sys.got
    ensures i < |sys.order| - |sys.s.jobs| ==> !Waiting(sys.s.jobs, sys.order[i])
    ensures i > |sys.order| - |sys.s.jobs| ==> Sent(sys, sys.order[i]) == []
  {
    hide Sent;
    var skip := |sys.order| - |sys.s.jobs|;
    assert sys.order[i] in sys.order;
    forall k | 0 <= k < |sys.s.jobs| && i < skip ensures sys.s.jobs[k].sender != sys.order[i] {
      assert sys.s.jobs[k].sender == sys.order[skip + k];
    }
    if i > skip {
      assert sys.s.jobs[i - skip].sender == sys.order[skip + (i - skip)];
    }
  }

  /** Transfers go one at a time, in the order they were requested. */
  lemma OneAtATime(c: Config, sys: Sys, i: nat, j: nat)
    requires Reachable(c, sys) && i < j < |sys.order|
    ensures sys.order[i] in sys.got && sys.order[j] in sys.got
    ensures Sent(sys, sys.order[j]) != [] ==>
      Sent(sys, sys.order[i]) != [] && Sent(sys, sys.order[i])[|Sent(sys, sys.order[i])| - 1].Close?
  {
    ReachableInv(c, sys);
    FirstJobSeparates(sys, i);
    FirstJobSeparates(sys, j);
    hide InOrder, Sent, Data, Waiting, Partway;
    assert Delivers(sys, sys.order[i]);
  }

  // ---------------------------------------------------------------- progress

  /** Steps still to come: two for a chunk on its way, one for anything else, and enough for each byte not yet read. */
  function Steps(sys: Sys): nat
  {
    3 * Work(sys.s.jobs) + Messages(sys.s.wire) + |sys.acks|
  }

  function Messages(ms: seq<Msg>): nat
  {
    if ms == [] then 0 else Messages(ms[..|ms| - 1]) + (if ms[|ms| - 1].Chunk? then 2 else 1)
  }

  lemma MessagesSnoc(ms: seq<Msg>, m: Msg)
    ensures Messages(ms + [m]) == Messages(ms) + (if m.Chunk? then 2 else 1)
  {
    assert (ms + [m])[..|ms|] == ms;
  }

  lemma {:induction false} MessagesRemove(ms: seq<Msg>, i: nat)
    requires i < |ms|
    ensures Messages(ms) == Messages(RemoveAt(ms, i)) + (if ms[i].Chunk? then 2 else 1)
    decreases |ms|
  {
    var last := |ms| - 1;
    if i == last {
      assert RemoveAt(ms, i) == ms[..last];
    } else {
      MessagesRemove(ms[..last], i);
      assert RemoveAt(ms, i) == RemoveAt(ms[..last], i) + [ms[last]];
      MessagesSnoc(RemoveAt(ms[..last], i), ms[last]);
    }
  }

  lemma {:induction false} ScheduleSteps(c: Config, s: State)
    ensures 3 * Work(Schedule(c, s).jobs) + Messages(Schedule(c, s).wire) <= 3 * Work(s.jobs) + Messages(s.wire)
    decreases Work(s.jobs)
  {
    if Pumps(c, s) {
      MessagesSnoc(s.wire, Next(c, s));
      PumpWorks(c, s);
      ScheduleSteps(c, Pump(c, s));
    }
  }

  predicate Delivery(e: Event) { e.Receive? || e.Ack? || e.Drop? }

  /** Every delivery uses up a step, so between requests there are only finitely many. */
  lemma DeliveryUsesSteps(c: Config, sys: Sys, e: Event)
    requires Enabled(sys, e) && Delivery(e)
    ensures Steps(Apply(c, sys, e)) < Steps(sys)
  {
    hide Messages, Work;
    if e.Receive? {
      MessagesRemove(sys.s.wire, e.i);
    } else if e.Ack? {
      ScheduleSteps(c, sys.s.(unacked := Deduct(sys.s.unacked, sys.acks[e.i].size)));
    }
  }

  lemma Nothing()
    ensures Volume([]) == 0 && Sum([]) == 0
    ensures forall x :: For([], x) == []
  {
  }

  lemma HeadCanBeDelivered(c: Config, sys: Sys)
    requires Inv(c, sys) && (sys.s.wire != [] || sys.acks != [])
    ensures Enabled(sys, Receive(0)) || Enabled(sys, Ack(0))
  {
  }

  /** How much more is counted as unacknowledged than is in flight or acknowledged and on its way. */
  function Excess(sys: Sys): int
  {
    sys.s.unacked - Volume(sys.s.wire) - Sum(sys.acks)
  }

  ghost predicate Closed(sys: Sys, x: Sender)
  {
    x in sys.got && sys.got[x] != [] && sys.got[x][|sys.got[x]| - 1].Close?
  }

  /** Nothing is left to deliver. */
  predicate Drained(sys: Sys)
  {
    sys.s.wire == [] && sys.acks == []
  }

  lemma DrainedMeansNothingEnabled(c: Config, sys: Sys)
    requires Reachable(c, sys)
    ensures Drained(sys) <==> forall i :: !Enabled(sys, Receive(i)) && !Enabled(sys, Ack(i))
  {
    ReachableInv(c, sys);
    if sys.s.wire != [] || sys.acks != [] {
      HeadCanBeDelivered(c, sys);
    }
  }

  /** A job is pending, and a window's worth is in excess. */
  predicate Stuck(c: Config, sys: Sys)
  {
    sys.s.jobs != [] && Excess(sys) >= c.window
  }

  /** With nothing left to deliver, everybody has been served exactly if no job is pending. */
  lemma DrainedIsClosedIff(c: Config, sys: Sys)
    requires Inv(c, sys) && Drained(sys)
    ensures sys.s.jobs == [] <==> forall x :: x in sys.files ==> Closed(sys, x)
    ensures sys.s.jobs == [] && !sys.down ==>
      forall x :: x in sys.files ==> x in sys.got && Data(sys.got[x]) == sys.files[x]
    ensures sys.s.jobs != [] ==> Stuck(c, sys)
  {
    Nothing();
    hide Data, Volume, Sum, For;
    forall x | x in sys.files ensures x in sys.got && Sent(sys, x) == sys.got[x] {
    }
    if sys.s.jobs == [] {
      forall x | x in sys.files ensures Closed(sys, x) && (!sys.down ==> Data(sys.got[x]) == sys.files[x]) {
        assert Delivers(sys, x);
      }
    } else {
      HeadIsKnown(sys);
      var x := sys.s.jobs[0].sender;
      assert Delivers(sys, x);
      assert Partway(sys.got[x], sys.files[x], sys.s.jobs[0].rest);
      assert !Closed(sys, x);
    }
  }

  /** Once transfers are stuck no delivery frees them; and where nobody is lost none gets them stuck. */
  lemma DeliveryKeepsStuck(c: Config, sys: Sys, e: Event)
    requires Inv(c, sys) && Enabled(sys, e) && Delivery(e)
    ensures var sys' := Apply(c, sys, e);
            && (Stuck(c, sys) ==> Stuck(c, sys'))
            && (sys.lost == {} && Stuck(c, sys') ==> Stuck(c, sys)) && sys'.lost == sys.lost
  {
    hide Volume, Sum, Core;
    if e.Receive? {
      VolumeRemove(sys.s.wire, e.i);
      SumSnoc(sys.acks, Reply(sys.s.wire[e.i].to, |Bytes(sys.s.wire[e.i])|));
    } else {
      SumRemove(sys.acks, e.i);
      if e.Ack? {
        ScheduleBalances(c, sys.s.(unacked := Deduct(sys.s.unacked, sys.acks[e.i].size)));
      }
    }
  }

  lemma {:induction false} DeliveriesKeepStuck(c: Config, sys: Sys, events: seq<Event>)
    requires Inv(c, sys) && CanRun(c, sys, events) && forall i :: 0 <= i < |events| ==> Delivery(events[i])
    ensures var sys' := Run(c, sys, events);
            && Inv(c, sys') && (Stuck(c, sys) ==> Stuck(c, sys'))
            && (sys.lost == {} && Stuck(c, sys') ==> Stuck(c, sys))
    decreases |events|
  {
    hide Inv, Stuck, Apply, Enabled;
    if events != [] {
      StepKeeps(c, sys, events[0]);
      DeliveryKeepsStuck(c, sys, events[0]);
      DeliveriesKeepStuck(c, Apply(c, sys, events[0]), events[1..]);
    }
  }

  lemma {:induction false} RunSplits(c: Config, sys: Sys, first: seq<Event>, rest: seq<Event>)
    requires CanRun(c, sys, first + rest)
    ensures CanRun(c, sys, first) && CanRun(c, Run(c, sys, first), rest)
    ensures Run(c, Run(c, sys, first), rest) == Run(c, sys, first + rest)
    decreases |first|
  {
    hide Apply, Enabled;
    if first == [] {
      assert first + rest == rest;
    } else {
      assert (first + rest)[0] == first[0] && (first + rest)[1..] == first[1..] + rest;
      RunSplits(c, Apply(c, sys, first[0]), first[1..], rest);
    }
  }

  /**
   When transfers get stuck: once everything on its way from a reachable state has been delivered, in any order,
   everything has been sent to all requesters exactly if it never happened on the way that a job was pending and
   a window's worth was in excess; and if nobody is lost, exactly if that was not so at the beginning.
   */
  lemma DeadlocksIffExcess(c: Config, sys: Sys, events: seq<Event>)
    requires Reachable(c, sys) && CanRun(c, sys, events) && Drained(Run(c, sys, events))
    requires forall i :: 0 <= i < |events| ==> Delivery(events[i])
    ensures forall k: nat :: k <= |events| ==> CanRun(c, sys, events[..k])
    ensures var sys' := Run(c, sys, events); var served := forall x :: x in sys'.files ==> Closed(sys', x);
            && (served <==> forall k: nat :: k <= |events| ==> !Stuck(c, Run(c, sys, events[..k])))
            && (sys.lost == {} ==> (served <==> !Stuck(c, sys)))
  {
    hide Inv, Reachable, Stuck, Run, CanRun, Closed, Drained;
    ReachableInv(c, sys);
    DeliveriesKeepStuck(c, sys, events);
    DrainedIsClosedIff(c, Run(c, sys, events));
    StuckHasJobs(c, Run(c, sys, events));
    assert events[..|events|] == events;
    forall k: nat | k <= |events|
      ensures CanRun(c, sys, events[..k])
      ensures Stuck(c, Run(c, sys, events[..k])) ==> Stuck(c, Run(c, sys, events))
    {
      assert events == events[..k] + events[k..];
      RunSplits(c, sys, events[..k], events[k..]);
      DeliveriesKeepStuck(c, sys, events[..k]);
      DeliveriesKeepStuck(c, Run(c, sys, events[..k]), events[k..]);
    }
  }

  lemma StuckHasJobs(c: Config, sys: Sys)
    ensures Stuck(c, sys) ==> sys.s.jobs != []
  {
  }

  /**
   From honest accounts, with nobody lost, an acknowledgement leads to a deadlock exactly if its size is minus a
   window or less.
   */
  lemma ForgeryDeadlocksIff(c: Config, sys: Sys, size: int, events: seq<Event>)
    requires Reachable(c, sys) && sys.honest && sys.lost == {} && Enabled(sys, Forge(size))
    requires var sys1 := Apply(c, sys, Forge(size));
             sys1.s.jobs != [] && CanRun(c, sys1, events) && Drained(Run(c, sys1, events))
    requires forall i :: 0 <= i < |events| ==> Delivery(events[i])
    ensures var sys' := Run(c, Apply(c, sys, Forge(size)), events);
            (forall x :: x in sys'.files ==> Closed(sys', x)) <==> -size < c.window
  {
    var sys1 := Apply(c, sys, Forge(size));
    ForgeryIsReachable(c, sys, size);
    hide Reachable, Schedule, Volume, Sum, Inv, Closed, Run, CanRun;
    WindowIsKeptFull(c, sys);
    NothingLeaks(c, sys);
    ScheduleBalances(c, sys.s.(unacked := Deduct(sys.s.unacked, size)));
    DeadlocksIffExcess(c, sys1, events);
  }

  lemma ForgeryIsReachable(c: Config, sys: Sys, size: int)
    requires Reachable(c, sys) && Enabled(sys, Forge(size))
    ensures Reachable(c, Apply(c, sys, Forge(size)))
  {
    var events :| CanRun(c, Start(), events) && Run(c, Start(), events) == sys;
    RunOneMore(c, Start(), events, Forge(size));
    assert CanRun(c, Start(), events + [Forge(size)]);
  }

  lemma {:induction false} RunOneMore(c: Config, sys: Sys, events: seq<Event>, e: Event)
    requires CanRun(c, sys, events) && Enabled(Run(c, sys, events), e)
    ensures CanRun(c, sys, events + [e]) && Run(c, sys, events + [e]) == Apply(c, Run(c, sys, events), e)
    decreases |events|
  {
    if events == [] {
      assert [] + [e] == [e] && [e][1..] == [];
    } else {
      RunOneMore(c, Apply(c, sys, events[0]), events[1..], e);
      assert (events + [e])[1..] == events[1..] + [e];
    }
  }

  /** Only lost requesters leak. */
  lemma NothingLeaks(c: Config, sys: Sys)
    requires Reachable(c, sys)
    ensures sys.lost == {} ==> sys.leaked == 0
  {
    var events :| CanRun(c, Start(), events) && Run(c, Start(), events) == sys;
    LeaksOnlyLost(c, Start(), events);
  }

  lemma StepLeaksOnlyLost(c: Config, sys: Sys, e: Event)
    requires Enabled(sys, e) && (sys.lost == {} ==> sys.leaked == 0)
    ensures Apply(c, sys, e).lost == {} ==> Apply(c, sys, e).leaked == 0
  {
    hide Schedule, Shutdown, Acknowledge, Fetch;
  }

  lemma {:induction false} LeaksOnlyLost(c: Config, sys: Sys, events: seq<Event>)
    requires CanRun(c, sys, events) && (sys.lost == {} ==> sys.leaked == 0)
    ensures Run(c, sys, events).lost == {} ==> Run(c, sys, events).leaked == 0
    decreases |events|
  {
    hide Apply, Enabled;
    if events != [] {
      StepLeaksOnlyLost(c, sys, events[0]);
      LeaksOnlyLost(c, Apply(c, sys, events[0]), events[1..]);
    }
  }

  /**
   No transfer gets stuck as long as no acknowledgement has a negative size and less than a window has leaked to
   requesters that are lost: when nothing is left to deliver, every requester has been sent its whole file and
   closed.
   */
  lemma NoDeadlock(c: Config, sys: Sys, x: Sender)
    requires Reachable(c, sys) && sys.positive && sys.leaked < c.window && x in sys.files
    requires forall i :: !Enabled(sys, Receive(i)) && !Enabled(sys, Ack(i))
    ensures x in sys.got && sys.got[x] != [] && sys.got[x][|sys.got[x]| - 1].Close?
    ensures !sys.down ==> Data(sys.got[x]) == sys.files[x]
  {
    DrainedMeansNothingEnabled(c, sys);
    ReachableInv(c, sys);
    WindowIsKeptFull(c, sys);
    DrainedIsClosedIff(c, sys);
    assert Closed(sys, x);
  }

  /** Two acknowledgements that break it: one that exceeds the bound, and one after which a request is never served. */
  lemma NegativeAcknowledgements(c: Config)
    ensures var events := [Request(0, []), Forge(-(c.window + c.ioSize))];
            CanRun(c, Start(), events) && Run(c, Start(), events).s.unacked == c.window + c.ioSize
    ensures var events := [Request(0, []), Receive(0), Forge(0 - c.window), Request(1, [7])];
            && CanRun(c, Start(), events)
            && var sys := Run(c, Start(), events);
               Drained(sys) && sys.lost == {} && 1 in sys.files && !Closed(sys, 1)
  {
    var s1 := Apply(c, Start(), Request(0, []));
    assert s1.s == State([], 0, [Close(0)]) by {
      assert [] + [Job(0, [])] == [Job(0, [])] && [Job(0, [])][1..] == [] && [] + [Close(0)] == [Close(0)];
      assert Schedule(c, State([], 0, [Close(0)])) == State([], 0, [Close(0)]);
    }
    var long := Forge(-(c.window + c.ioSize));
    assert Apply(c, s1, long).s == State([], c.window + c.ioSize, [Close(0)]);
    OneEvent(c, s1, long);
    OneEventMore(c, Start(), Request(0, []), [long]);

    var s2 := Apply(c, s1, Receive(0));
    assert s2.s == State([], 0, []);
    var s3 := Apply(c, s2, Forge(0 - c.window));
    assert s3.s == State([], c.window, []);
    var last := Request(1, [7]);
    assert Apply(c, s3, last).s == State([Job(1, [7])], c.window, []) by {
      assert [] + [Job(1, [7])] == [Job(1, [7])];
    }
    OneEvent(c, s3, last);
    OneEventMore(c, s2, Forge(0 - c.window), [last]);
    OneEventMore(c, s1, Receive(0), [Forge(0 - c.window)] + [last]);
    OneEventMore(c, Start(), Request(0, []), [Receive(0)] + ([Forge(0 - c.window)] + [last]));
    assert [Request(0, [])] + ([Receive(0)] + ([Forge(0 - c.window)] + [last]))
        == [Request(0, []), Receive(0), Forge(0 - c.window), last];
    assert [Request(0, [])] + [long] == [Request(0, []), long];
  }

  lemma OneEvent(c: Config, sys: Sys, e: Event)
    requires Enabled(sys, e)
    ensures CanRun(c, sys, [e]) && Run(c, sys, [e]) == Apply(c, sys, e)
  {
    assert [e][1..] == [];
    assert CanRun(c, Apply(c, sys, e), []);
  }

  lemma OneEventMore(c: Config, sys: Sys, e: Event, rest: seq<Event>)
    requires Enabled(sys, e) && CanRun(c, Apply(c, sys, e), rest)
    ensures CanRun(c, sys, [e] + rest) && Run(c, sys, [e] + rest) == Run(c, Apply(c, sys, e), rest)
  {
    assert ([e] + rest)[1..] == rest;
  }

  lemma {:induction false} LongFileWaits(c: Config, s: State, x: Sender)
    requires |s.jobs| == 1 && s.jobs[0].sender == x && s.unacked + |s.jobs[0].rest| >= c.window
    requires forall m :: m in s.wire ==> m.to == x
    ensures var s' := Schedule(c, s);
            && |s'.jobs| == 1 && s'.jobs[0].sender == x && s'.unacked >= c.window
            && forall m :: m in s'.wire ==> m.to == x
    decreases Work(s.jobs)
  {
    if Pumps(c, s) {
      PumpWorks(c, s);
      LongFileWaits(c, Pump(c, s), x);
    }
  }

  /** What is on its way to lost requesters only can all be delivered, and nothing comes of it. */
  lemma {:induction false} DrainToLost(c: Config, sys: Sys) returns (events: seq<Event>)
    requires sys.acks == [] && forall m :: m in sys.s.wire ==> m.to in sys.lost && m.to in sys.got
    ensures CanRun(c, sys, events)
    ensures var sys' := Run(c, sys, events);
            && Drained(sys') && sys' == sys.(s := sys'.s, got := sys'.got, leaked := sys'.leaked)
            && sys'.s.jobs == sys.s.jobs
            && forall y :: y in sys.got && y !in sys.lost ==> y in sys'.got && sys'.got[y] == sys.got[y]
    decreases |sys.s.wire|
  {
    events := [];
    if sys.s.wire != [] {
      var next := Apply(c, sys, Receive(0));
      assert sys.s.wire[0] in sys.s.wire && next.s.wire == sys.s.wire[1..];
      var rest := DrainToLost(c, next);
      events := [Receive(0)] + rest;
      OneEventMore(c, sys, Receive(0), rest);
    }
  }

  /**
   Honest acknowledgements are not enough: a requester that is lost with a window's worth on its way to it
   leaves another one on the same stream waiting for ever.
   */
  lemma LostRequesterStalls(c: Config) returns (events: seq<Event>)
    ensures CanRun(c, Start(), events)
    ensures var sys := Run(c, Start(), events);
            sys.honest && !sys.down && Drained(sys) && 1 in sys.files && 1 !in sys.lost && !Closed(sys, 1)
  {
    hide Schedule;
    var first, second := Request(0, seq(c.window, _ => 7)), Request(1, [7]);
    var s1 := Apply(c, Start(), first);
    LongFileWaits(c, State([Job(0, first.file)], 0, []), 0);
    assert [] + [Job(0, first.file)] == [Job(0, first.file)];
    var s2 := Apply(c, s1, second);
    ScheduleWaits(c, s1.s.(jobs := s1.s.jobs + [Job(1, [7])]));
    var s3 := Apply(c, s2, Lose(0));
    var rest := DrainToLost(c, s3);
    OneEventMore(c, s2, Lose(0), rest);
    OneEventMore(c, s1, second, [Lose(0)] + rest);
    OneEventMore(c, Start(), first, [second] + ([Lose(0)] + rest));
    events := [first] + ([second] + ([Lose(0)] + rest));
  }

  lemma ScheduleWaits(c: Config, s: State)
    requires s.unacked >= c.window
    ensures Schedule(c, s) == s
  {
  }
}
