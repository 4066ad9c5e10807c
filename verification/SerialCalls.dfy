/**
 `SerializedInvoker` under concurrency. Each region that holds its lock is one step, and so is each call
 of a service method, which happens outside it.
 */
module SerialCalls {
  import opened Seqs

  type Req = nat

  datatype State = State(queue: seq<Req>, running: bool)

  function Enqueue(s: State, r: Req): (State, bool)
  {
    (State(s.queue + [r], true), !s.running)
  }

  function Pop(s: State): (State, Option<Req>)
  {
    if s.queue == [] then (s.(running := false), None) else (s.(queue := s.queue[1..]), Some(s.queue[0]))
  }

  class SerializedInvoker {
    var queue: seq<Req>
    var running: bool

    ghost function Value(): State
      reads this
    {
      State(queue, running)
    }

    constructor ()
      ensures Value() == State([], false)
    {
      queue, running := [], false;
    }

    /** The locked region of `invoke`; the caller goes on to `_run` when it is the first. */
    method EnqueueRequest(r: Req) returns (first: bool)
      modifies this
      ensures (Value(), first) == old(Enqueue(Value(), r))
    {
      queue := queue + [r];
      first := !running;
      running := true;
    }

    /** `_pop`. */
    method PopRequest() returns (r: Option<Req>)
      modifies this
      ensures (Value(), r) == old(Pop(Value()))
    {
      if queue == [] {
        running := false;
        return None;
      }
      r := Some(queue[0]);
      queue := queue[1..];
    }
  }

  /** Where a thread is in `_run`. */
  datatype Runner = Popping | Executing(r: Req)

  /** `broken` is the call, if any, for which even the reply with its error raised: that ends `_run`. */
  datatype Sys = Sys(
    s: State, runners: seq<Runner>, asked: seq<Req>, begun: seq<Req>, ended: seq<Req>, broken: Option<Req>)

  datatype Event = Invoke(r: Req) | PopNext(i: nat) | Finish(i: nat) | Break(i: nat)

  predicate Enabled(sys: Sys, e: Event)
  {
    match e
    case Invoke(_) => true
    case PopNext(i) => i < |sys.runners| && sys.runners[i].Popping?
    case Finish(i) => i < |sys.runners| && sys.runners[i].Executing?
    case Break(i) => i < |sys.runners| && sys.runners[i].Executing?
  }

  function Apply(sys: Sys, e: Event): Sys
    requires Enabled(sys, e)
  {
    match e
    case Invoke(r) =>
      var (s, first) := Enqueue(sys.s, r);
      sys.(s := s, asked := sys.asked + [r], runners := if first then sys.runners + [Popping] else sys.runners)
    case PopNext(i) =>
      var (s, next) := Pop(sys.s);
      if next.None? then sys.(s := s, runners := RemoveAt(sys.runners, i))
      else sys.(s := s, runners := sys.runners[i := Executing(next.value)], begun := sys.begun + [next.value])
    case Finish(i) =>
      sys.(runners := sys.runners[i := Popping], ended := sys.ended + [sys.runners[i].r])
    case Break(i) =>
      sys.(runners := RemoveAt(sys.runners, i), broken := Some(sys.runners[i].r))
  }

  function Busy(runners: seq<Runner>): seq<Req>
  {
    if runners != [] && runners[0].Executing? then [runners[0].r] else []
  }

  ghost predicate Inv(sys: Sys)
  {
    && |sys.runners| == (if sys.s.running && sys.broken.None? then 1 else 0)
    && (sys.broken.Some? ==> sys.s.running)
    && (!sys.s.running ==> sys.s.queue == [])
    && sys.begun == sys.ended + Busy(sys.runners) + (if sys.broken.Some? then [sys.broken.value] else [])
    && sys.asked == sys.begun + sys.s.queue
  }

  predicate CanRun(sys: Sys, events: seq<Event>)
    decreases |events|
  {
    events == [] || (Enabled(sys, events[0]) && CanRun(Apply(sys, events[0]), events[1..]))
  }

  function Run(sys: Sys, events: seq<Event>): Sys
    requires CanRun(sys, events)
    decreases |events|
  {
    if events == [] then sys else Run(Apply(sys, events[0]), events[1..])
  }

  lemma StepKeeps(sys: Sys, e: Event)
    requires Inv(sys) && Enabled(sys, e)
    ensures Inv(Apply(sys, e))
  {
    if e.PopNext? && sys.s.queue != [] {
      assert sys.begun == sys.ended;
      assert sys.s.queue == [sys.s.queue[0]] + sys.s.queue[1..];
    }
  }

  lemma {:induction false} RunKeeps(sys: Sys, events: seq<Event>)
    requires Inv(sys) && CanRun(sys, events)
    ensures Inv(Run(sys, events))
    decreases |events|
  {
    if events != [] {
      StepKeeps(sys, events[0]);
      RunKeeps(Apply(sys, events[0]), events[1..]);
    }
  }

  function Start(): Sys { Sys(State([], false), [], [], [], [], None) }

  /**
   In every run at most one thread is in `_run`, calls begin and end in the order they were asked for, one
   at a time, and nothing is stranded: while anything has not ended there is a thread that can go on. Only where
   the reply with an error raises is that not so: then no thread is left, nor ever will be, and the flag stays up.
   */
  lemma CallsAreSerial(events: seq<Event>)
    requires CanRun(Start(), events)
    ensures var sys := Run(Start(), events);
            && |sys.runners| <= 1 && sys.begun <= sys.asked && sys.ended <= sys.begun && |sys.begun| <= |sys.ended| + 1
            && (sys.runners == [] ==> (sys.ended == sys.asked && !sys.s.running <==> sys.broken.None?))
            && (sys.runners != [] ==> Enabled(sys, PopNext(0)) || Enabled(sys, Finish(0)))
            && (sys.broken.Some? ==> sys.runners == [] && sys.s.running && |sys.ended| < |sys.asked|)
  {
    RunKeeps(Start(), events);
  }

  function Steps(sys: Sys): nat
  {
    2 * |sys.s.queue| + |sys.runners| + |Busy(sys.runners)|
  }

  /** A thread in `_run` gets through the queue: each of its steps leaves fewer to come. */
  lemma RunnerDrainsQueue(sys: Sys, e: Event)
    requires Inv(sys) && Enabled(sys, e) && !e.Invoke?
    ensures Steps(Apply(sys, e)) < Steps(sys)
  {
    assert |sys.runners| == 1;
  }
}
