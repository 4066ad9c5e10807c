/**
 `Latch`: a queue whose sleeping readers are matched to queue slots by index. Every region of
 the program that holds the latch's lock is one step; writing a wake-up cookie to a sleeper's
 socket happens after `put` has released the lock, so it is a step of its own.
 */
module LatchModel {
  import opened Seqs

  /** A thread that may sleep: its socket pair together with the cookie it expects. */
  type Sleeper = nat

  /** The fields of a latch that its lock protects. */
  datatype LatchState<T> = LatchState(queue: seq<T>, sleeping: seq<Sleeper>, waking: nat, closed: bool)

  /** How a call of `get` leaves a region in which it held the lock. */
  datatype GetOutcome<T> =
    | Item(value: T)   // an element was popped
    | Asleep           // the caller joined the sleepers
    | TimedOut         // TimeoutError
    | Raised           // the exception that ended the poll
    | Closed           // LatchError
    | Unassigned       // the assertion that a woken sleeper owns a slot failed
    | NoElement        // the slot the sleeper owns is past the end of the queue

  /** What `put` does besides appending. */
  datatype PutOutcome = Woke(who: Sleeper) | Notify | Refused

  /** First locked region of `get`. */
  function Enter<T>(s: LatchState<T>, who: Sleeper, block: bool): (LatchState<T>, GetOutcome<T>)
  {
    var i := |s.sleeping|;
    if s.closed then (s, Closed)
    else if |s.queue| > i then (s.(queue := RemoveAt(s.queue, i)), Item(s.queue[i]))
    else if !block then (s, TimedOut)
    else (s.(sleeping := s.sleeping + [who]), Asleep)
  }

  /** Second locked region of `get`, after the poll ended or failed, with or without a cookie to read. */
  function Rise<T>(s: LatchState<T>, who: Sleeper, failed: bool, cookie: bool): (LatchState<T>, GetOutcome<T>)
    requires who in s.sleeping
  {
    var i := IndexOf(s.sleeping, who);
    var s' := s.(sleeping := RemoveAt(s.sleeping, i));
    if !cookie then (s', TimedOut)
    else if failed then (s', Raised)
    else if i >= s.waking then (s', Unassigned)
    else
      var s'' := s'.(waking := s.waking - 1);
      if s.closed then (s'', Closed)
      else if i >= |s.queue| then (s'', NoElement)
      else (s''.(queue := RemoveAt(s.queue, i)), Item(s.queue[i]))
  }

  /** Locked region of `put`. */
  function Put<T>(s: LatchState<T>, x: T): (LatchState<T>, PutOutcome)
  {
    if s.closed then (s, Refused)
    else if s.waking < |s.sleeping| then
      (s.(queue := s.queue + [x], waking := s.waking + 1), Woke(s.sleeping[s.waking]))
    else
      (s.(queue := s.queue + [x]), Notify)
  }

  /** Sleepers no element has been assigned to. */
  function Unwoken<T>(s: LatchState<T>): seq<Sleeper>
  {
    if s.waking < |s.sleeping| then s.sleeping[s.waking..] else []
  }

  /** `close`: everybody not yet woken is woken. */
  function Close<T>(s: LatchState<T>): LatchState<T>
  {
    s.(closed := true, waking := s.waking + |Unwoken(s)|)
  }

  class Latch<T> {
    var queue: seq<T>
    var sleeping: seq<Sleeper>
    var waking: nat
    var closed: bool

    constructor ()
      ensures State() == LatchState([], [], 0, false)
    {
      queue, sleeping, waking, closed := [], [], 0, false;
    }

    function State(): LatchState<T>
      reads this
    {
      LatchState(queue, sleeping, waking, closed)
    }

    /** Wakes every sleeper that was not already woken, in order of their going to sleep. */
    method CloseLatch() returns (woken: seq<Sleeper>)
      modifies this
      ensures State() == Close(old(State()))
      ensures woken == Unwoken(old(State()))
    {
      closed := true;
      woken := [];
      while waking < |sleeping|
        invariant closed && queue == old(queue) && sleeping == old(sleeping)
        invariant old(waking) <= waking
        invariant waking <= |sleeping| || waking == old(waking)
        invariant old(waking) <= |sleeping| ==> woken == sleeping[old(waking)..waking]
        invariant old(waking) > |sleeping| ==> woken == []
      {
        woken := woken + [sleeping[waking]];
        waking := waking + 1;
      }
    }

    method Size() returns (r: GetOutcome<nat>)
      ensures r == if closed then Closed else Item(|queue|)
    {
      if closed { return Closed; }
      return Item(|queue|);
    }

    method GetEnter(who: Sleeper, block: bool) returns (r: GetOutcome<T>)
      modifies this
      ensures (State(), r) == Enter(old(State()), who, block)
      ensures !block ==> sleeping == old(sleeping) && !r.Asleep?
      ensures !block && !closed && |old(queue)| <= |sleeping| ==> r.TimedOut? && State() == old(State())
    {
      if closed { return Closed; }
      var i := |sleeping|;
      if |queue| > i {
        r := Item(queue[i]);
        queue := RemoveAt(queue, i);
        return;
      }
      if !block { return TimedOut; }
      sleeping := sleeping + [who];
      return Asleep;
    }

    method GetRise(who: Sleeper, failed: bool, cookie: bool) returns (r: GetOutcome<T>)
      requires who in sleeping
      modifies this
      ensures (State(), r) == Rise(old(State()), who, failed, cookie)
    {
      var i := IndexOf(sleeping, who);
      sleeping := RemoveAt(sleeping, i);
      if !cookie { return TimedOut; }
      if failed { return Raised; }
      if i >= waking { return Unassigned; }
      waking := waking - 1;
      if closed { return Closed; }
      if i >= |queue| { return NoElement; }
      r := Item(queue[i]);
      queue := RemoveAt(queue, i);
    }

    method PutLocked(x: T) returns (r: PutOutcome)
      modifies this
      ensures (State(), r) == Put(old(State()), x)
    {
      if closed { return Refused; }
      queue := queue + [x];
      r := Notify;
      if waking < |sleeping| {
        r := Woke(sleeping[waking]);
        waking := waking + 1;
      }
    }
  }

  // ---------------------------------------------------------------- threads sharing a latch

  /**
   The latch with the threads around it. `unwritten` are sleepers whose cookie a `put` still has
   to write, `readable` those whose socket holds a cookie. The last four fields record the past:
   the gets that entered and did not time out, in order; the values put, in order; what the n-th
   of those gets has returned; and the `block` argument of each thread's last call.
   */
  datatype System<T> = System(
    latch: LatchState<T>,
    unwritten: set<Sleeper>,
    readable: set<Sleeper>,
    own: seq<nat>,
    gets: seq<Sleeper>,
    puts: seq<T>,
    results: map<nat, T>,
    blocks: map<Sleeper, bool>)

  datatype Event<T> =
    | GetCall(who: Sleeper, block: bool)
    | Wake(who: Sleeper)
    | Expire(who: Sleeper)   // the poll timed out with nothing to read, or it failed
    | PutCall(x: T)
    | WriteCookie(who: Sleeper)
    | CloseCall

  predicate Enabled<T>(s: System<T>, e: Event<T>)
  {
    match e
    case GetCall(who, _) => who !in s.latch.sleeping
    case Wake(who) => who in s.latch.sleeping && who in s.readable
    case Expire(who) => who in s.latch.sleeping
    case WriteCookie(who) => who in s.unwritten
    case _ => true
  }

  /** An expiry before any `put` or `close` has chosen the sleeper. */
  predicate Safe<T>(s: System<T>, e: Event<T>)
  {
    Enabled(s, e) && (e.Expire? ==> e.who !in s.unwritten + s.readable)
  }

  function Apply<T>(s: System<T>, e: Event<T>): System<T>
    requires Enabled(s, e)
  {
    match e
    case GetCall(who, block) =>
      var (l, r) := Enter(s.latch, who, block);
      var s' := s.(latch := l, blocks := s.blocks[who := block]);
      if r.Item? then s'.(gets := s.gets + [who], results := s.results[|s.gets| := r.value])
      else if r.Asleep? then s'.(gets := s.gets + [who])
      else s'
    case Wake(who) =>
      var i := IndexOf(s.latch.sleeping, who);
      var (l, r) := Rise(s.latch, who, false, true);
      var s' := s.(latch := l, readable := s.readable - {who});
      if i >= |s.own| then s'
      else
        s'.(own := RemoveAt(s.own, i),
            results := if r.Item? then s.results[s.own[i] := r.value] else s.results)
    case Expire(who) =>
      // The expired call no longer counts among the gets: it is the one as far from the end
      // of `gets` as it is from the end of the sleepers.
      var i := IndexOf(s.latch.sleeping, who);
      var back := |s.latch.sleeping| - i;
      s.(latch := Rise(s.latch, who, true, who in s.readable).0, readable := s.readable - {who},
         gets := if s.latch.waking <= i && back <= |s.gets| then RemoveAt(s.gets, |s.gets| - back) else s.gets)
    case PutCall(x) =>
      var (l, r) := Put(s.latch, x);
      if r.Refused? then s
      else if r.Woke? then
        s.(latch := l, unwritten := s.unwritten + {r.who}, own := s.own + [|s.puts|], puts := s.puts + [x])
      else s.(latch := l, puts := s.puts + [x])
    case WriteCookie(who) =>
      s.(unwritten := s.unwritten - {who}, readable := s.readable + {who})
    case CloseCall =>
      s.(latch := Close(s.latch), readable := s.readable + SetOf(Unwoken(s.latch)))
  }

  function SetOf(s: seq<Sleeper>): set<Sleeper>
  {
    set x | x in s
  }

  /**
   The position, among all gets or among all puts, of slot `k`: the first slots are the ones in
   `own`, the others follow on from position `m`.
   */
  function Position(own: seq<nat>, m: nat, k: nat): nat
  {
    if k < |own| then own[k] else m + (k - |own|)
  }

  ghost predicate Placed<X>(slots: seq<X>, own: seq<nat>, all: seq<X>, m: nat)
  {
    && m <= |all|
    && |slots| == |own| + |all| - m
    && (forall k :: 0 <= k < |own| ==> own[k] < m)
    && (forall k :: 0 <= k < |slots| ==> slots[k] == all[Position(own, m, k)])
  }

  /**
   Sleeper k below `waking` owns slot k of the queue: both stand for position `own[k]` of the
   gets and of the puts. Beyond those, either gets wait for values or values wait for gets.
   */
  ghost predicate Matching<T>(s: System<T>)
  {
    var m := Min(|s.gets|, |s.puts|);
    && |s.own| == s.latch.waking
    && Placed(s.latch.queue, s.own, s.puts, m)
    && Placed(s.latch.sleeping, s.own, s.gets, m)
    && (forall j, k :: 0 <= j < k < |s.own| ==> s.own[j] < s.own[k])
    && (forall n :: n in s.results <==> (0 <= n < m && n !in s.own))
  }

  /** A thread owns a queue slot exactly when its cookie is written or about to be. */
  ghost predicate Cookies<T>(s: System<T>)
  {
    && s.latch.waking <= |s.latch.sleeping|
    && s.unwritten !! s.readable
    && s.unwritten + s.readable == SetOf(s.latch.sleeping[..s.latch.waking])
  }

  /** The n-th get that returned a value returned the n-th value put. */
  ghost predicate Fifo<T>(s: System<T>)
  {
    forall n :: n in s.results ==> n < |s.gets| && n < |s.puts| && s.results[n] == s.puts[n]
  }

  /** Only calls with `block` set sleep. */
  ghost predicate SleepersBlock<T>(s: System<T>)
  {
    forall who :: who in s.latch.sleeping ==> who in s.blocks && s.blocks[who]
  }

  ghost predicate Inv<T>(s: System<T>)
  {
    && Distinct(s.latch.sleeping)
    && SleepersBlock(s)
    && Cookies(s)
    && Fifo(s)
    && (if s.latch.closed then s.latch.waking == |s.latch.sleeping| else Matching(s))
  }

  lemma AppendPlaced<X>(slots: seq<X>, own: seq<nat>, all: seq<X>, m: nat, x: X)
    requires Placed(slots, own, all, m)
    ensures Placed(slots + [x], own, all + [x], m)
  {
  }

  /** The first unowned slot becomes owned. */
  lemma AssignPlaced<X>(slots: seq<X>, own: seq<nat>, all: seq<X>, m: nat)
    requires Placed(slots, own, all, m) && m < |all|
    ensures Placed(slots, own + [m], all, m + 1)
  {
    forall k | 0 <= k < |slots| ensures slots[k] == all[Position(own + [m], m + 1, k)] {
      assert Position(own + [m], m + 1, k) == Position(own, m, k);
    }
  }

  lemma RemovePlaced<X>(slots: seq<X>, own: seq<nat>, all: seq<X>, m: nat, i: nat)
    requires Placed(slots, own, all, m) && i < |own|
    ensures Placed(RemoveAt(slots, i), RemoveAt(own, i), all, m)
  {
    var slots', own' := RemoveAt(slots, i), RemoveAt(own, i);
    forall k | 0 <= k < |slots'| ensures slots'[k] == all[Position(own', m, k)] {
      var k0 := if k < i then k else k + 1;
      assert slots[k0] == all[Position(own, m, k0)];
    }
  }

  lemma PlacedCounts<X>(slots: seq<X>, own: seq<nat>, all: seq<X>, m: nat)
    requires Placed(slots, own, all, m)
    ensures |slots| == |own| + |all| - m
  {
  }

  /** One that nobody owns is taken out together with its value. */
  lemma RemoveUnowned<X>(slots: seq<X>, own: seq<nat>, all: seq<X>, m: nat, i: nat)
    requires Placed(slots, own, all, m) && |own| <= i < |slots|
    ensures Placed(RemoveAt(slots, i), own, RemoveAt(all, |all| - (|slots| - i)), m)
  {
    var slots', all' := RemoveAt(slots, i), RemoveAt(all, |all| - (|slots| - i));
    forall k | 0 <= k < |slots'| ensures slots'[k] == all'[Position(own, m, k)] {
      var k0 := if k < i then k else k + 1;
      assert slots[k0] == all[Position(own, m, k0)];
    }
  }

  /** The first unowned slot is taken at once. */
  lemma TakePlaced<X>(slots: seq<X>, own: seq<nat>, all: seq<X>, m: nat)
    requires Placed(slots, own, all, m) && m < |all|
    ensures Placed(RemoveAt(slots, |own|), own, all, m + 1)
  {
    AssignPlaced(slots, own, all, m);
    RemovePlaced(slots, own + [m], all, m + 1, |own|);
    assert RemoveAt(own + [m], |own|) == own;
  }

  lemma EnterTakes<T>(s: System<T>, e: Event<T>)
    requires Matching(s) && !s.latch.closed && Enabled(s, e) && e.GetCall?
    requires |s.latch.queue| > |s.latch.sleeping|
    ensures Matching(Apply(s, e))
  {
    var m, l := |s.gets|, s.latch;
    assert |l.sleeping| == |s.own| && m < |s.puts| && l.waking == |s.own|;
    AppendPlaced(l.sleeping, s.own, s.gets, m, e.who);
    TakePlaced(l.sleeping + [e.who], s.own, s.gets + [e.who], m);
    assert RemoveAt(l.sleeping + [e.who], |s.own|) == l.sleeping;
    TakePlaced(l.queue, s.own, s.puts, m);
    assert m !in s.own;
    hide Placed, RemoveAt;
    var s' := Apply(s, e);
    assert s'.gets == s.gets + [e.who] && s'.puts == s.puts && s'.own == s.own;
    assert s'.results.Keys == s.results.Keys + {m};
  }

  lemma EnterMatches<T>(s: System<T>, e: Event<T>)
    requires Matching(s) && !s.latch.closed && Enabled(s, e) && e.GetCall?
    ensures Matching(Apply(s, e))
  {
    if |s.latch.queue| > |s.latch.sleeping| {
      EnterTakes(s, e);
    } else if e.block {
      AppendPlaced(s.latch.sleeping, s.own, s.gets, Min(|s.gets|, |s.puts|), e.who);
    }
  }

  lemma EnterKeeps<T>(s: System<T>, e: Event<T>)
    requires Inv(s) && Enabled(s, e) && e.GetCall?
    ensures Inv(Apply(s, e))
  {
    hide Matching, Cookies, Distinct, SleepersBlock, Fifo, Enter;
    EnterCookies(s, e);
    if !s.latch.closed {
      EnterMatches(s, e);
      EnterFifo(s, e);
    }
  }

  lemma EnterCookies<T>(s: System<T>, e: Event<T>)
    requires Distinct(s.latch.sleeping) && Cookies(s) && SleepersBlock(s) && Enabled(s, e) && e.GetCall?
    ensures var s' := Apply(s, e);
            && Distinct(s'.latch.sleeping) && Cookies(s') && SleepersBlock(s') && s'.latch.closed == s.latch.closed
            && (s.latch.closed ==> s'.latch == s.latch && s' == s.(blocks := s'.blocks))
            && (s.latch.closed && Fifo(s) ==> Fifo(s'))
  {
    var w := s.latch.waking;
    assert (s.latch.sleeping + [e.who])[..w] == s.latch.sleeping[..w];
  }

  lemma EnterFifo<T>(s: System<T>, e: Event<T>)
    requires Fifo(s) && Matching(s) && !s.latch.closed && Enabled(s, e) && e.GetCall?
    ensures Fifo(Apply(s, e))
  {
    assert |s.latch.queue| > |s.latch.sleeping| ==>
      |s.latch.sleeping| == |s.own| && s.latch.queue[|s.own|] == s.puts[Position(s.own, |s.gets|, |s.own|)];
  }

  lemma PutMatches<T>(s: System<T>, e: Event<T>)
    requires Matching(s) && !s.latch.closed && e.PutCall?
    ensures Matching(Apply(s, e))
  {
    var m, l := Min(|s.gets|, |s.puts|), s.latch;
    AppendPlaced(l.queue, s.own, s.puts, m, e.x);
    if l.waking < |l.sleeping| {
      AssignPlaced(l.queue + [e.x], s.own, s.puts + [e.x], m);
      AssignPlaced(l.sleeping, s.own, s.gets, m);
    }
  }

  lemma AddCookie(q: seq<Sleeper>, w: nat)
    requires Distinct(q) && w < |q|
    ensures SetOf(q[..w + 1]) == SetOf(q[..w]) + {q[w]} && q[w] !in q[..w]
  {
    assert q[..w + 1] == q[..w] + [q[w]];
  }

  lemma PutKeeps<T>(s: System<T>, e: Event<T>)
    requires Inv(s) && Enabled(s, e) && e.PutCall?
    ensures Inv(Apply(s, e))
  {
    if !s.latch.closed {
      PutMatches(s, e);
      if s.latch.waking < |s.latch.sleeping| {
        AddCookie(s.latch.sleeping, s.latch.waking);
      }
    }
  }

  /** A woken thread finds its slot: the outcome is its own value, or LatchError after `close`. */
  lemma WakeOutcome<T>(s: System<T>, who: Sleeper)
    requires Inv(s) && Enabled(s, Wake(who))
    ensures var i := IndexOf(s.latch.sleeping, who);
            && i < s.latch.waking
            && Rise(s.latch, who, false, true).1 == (if s.latch.closed then Closed else Item(s.puts[s.own[i]]))
            && (!s.latch.closed ==> s.gets[s.own[i]] == who)
  {
    assert who in s.latch.sleeping[..s.latch.waking];
    var k :| 0 <= k < s.latch.waking && s.latch.sleeping[k] == who;
    assert IndexOf(s.latch.sleeping, who) == k;
  }

  lemma RemoveCookie(s: seq<Sleeper>, w: nat, i: nat)
    requires Distinct(s) && i < w <= |s|
    ensures SetOf(RemoveAt(s, i)[..w - 1]) == SetOf(s[..w]) - {s[i]}
    ensures Distinct(RemoveAt(s, i))
  {
    var before, after := s[..i], s[i + 1..w];
    assert s[..w] == before + [s[i]] + after && RemoveAt(s, i)[..w - 1] == before + after;
    assert forall k :: 0 <= k < i ==> s[k] != s[i];
    assert s[i] !in before && s[i] !in after;
  }

  lemma RemovePosition(own: seq<nat>, i: nat)
    requires i < |own| && (forall j, k :: 0 <= j < k < |own| ==> own[j] < own[k])
    ensures forall n :: n in RemoveAt(own, i) <==> (n in own && n != own[i])
  {
    forall n | n in own && n != own[i] ensures n in RemoveAt(own, i) {
      var k :| 0 <= k < |own| && own[k] == n;
      assert RemoveAt(own, i)[if k < i then k else k - 1] == n;
    }
  }

  lemma PlacedAt<X>(slots: seq<X>, own: seq<nat>, all: seq<X>, m: nat, i: nat)
    requires Placed(slots, own, all, m) && i < |own|
    ensures i < |slots| && own[i] < m <= |all| && slots[i] == all[own[i]]
  {
    assert Position(own, m, i) == own[i];
  }

  lemma WakeMatches<T>(s: System<T>, e: Event<T>)
    requires Inv(s) && !s.latch.closed && Enabled(s, e) && e.Wake?
    ensures Matching(Apply(s, e)) && Fifo(Apply(s, e))
  {
    hide Cookies, Distinct, Placed, RemoveAt;
    var i, m := IndexOf(s.latch.sleeping, e.who), Min(|s.gets|, |s.puts|);
    WakeOutcome(s, e.who);
    PlacedAt(s.latch.queue, s.own, s.puts, m, i);
    RemovePlaced(s.latch.queue, s.own, s.puts, m, i);
    RemovePlaced(s.latch.sleeping, s.own, s.gets, m, i);
    RemovePosition(s.own, i);
    var s' := Apply(s, e);
    assert s'.own == RemoveAt(s.own, i) && s'.gets == s.gets && s'.puts == s.puts;
    assert s'.results == s.results[s.own[i] := s.puts[s.own[i]]];
  }

  lemma WakeCookies<T>(s: System<T>, e: Event<T>)
    requires Distinct(s.latch.sleeping) && Cookies(s) && Enabled(s, e) && e.Wake?
    requires IndexOf(s.latch.sleeping, e.who) < s.latch.waking
    ensures Cookies(Apply(s, e)) && Distinct(Apply(s, e).latch.sleeping)
  {
    RemoveCookie(s.latch.sleeping, s.latch.waking, IndexOf(s.latch.sleeping, e.who));
  }

  lemma WakeKeeps<T>(s: System<T>, e: Event<T>)
    requires Inv(s) && Enabled(s, e) && e.Wake?
    ensures Inv(Apply(s, e))
  {
    hide Cookies, Distinct, SleepersBlock, Matching, RemoveAt;
    WakeOutcome(s, e.who);
    WakeCookies(s, e);
    LeavingBlocks(s, e);
    if s.latch.closed {
      WakeWhenClosed(s, e);
    } else {
      WakeMatches(s, e);
    }
  }

  lemma LeavingBlocks<T>(s: System<T>, e: Event<T>)
    requires SleepersBlock(s) && Enabled(s, e) && (e.Wake? || e.Expire?)
    ensures SleepersBlock(Apply(s, e))
  {
    var q, i := s.latch.sleeping, IndexOf(s.latch.sleeping, e.who);
    assert Apply(s, e).latch.sleeping == RemoveAt(q, i) && Apply(s, e).blocks == s.blocks;
    forall who | who in RemoveAt(q, i) ensures who in q {
      var k :| 0 <= k < |RemoveAt(q, i)| && RemoveAt(q, i)[k] == who;
      assert q[if k < i then k else k + 1] == who;
    }
  }

  lemma WakeWhenClosed<T>(s: System<T>, e: Event<T>)
    requires Inv(s) && s.latch.closed && Enabled(s, e) && e.Wake?
    ensures Fifo(Apply(s, e)) && Apply(s, e).latch.closed
    ensures Apply(s, e).latch.waking == |Apply(s, e).latch.sleeping|
  {
    WakeOutcome(s, e.who);
  }

  lemma ExpireMatches<T>(s: System<T>, e: Event<T>)
    requires Matching(s) && Enabled(s, e) && e.Expire?
    requires IndexOf(s.latch.sleeping, e.who) >= s.latch.waking
    ensures Matching(Apply(s, e))
    ensures Fifo(s) ==> Fifo(Apply(s, e))
  {
    hide Placed, RemoveAt;
    var s' := Apply(s, e);
    var i, m := IndexOf(s.latch.sleeping, e.who), |s.puts|;
    PlacedCounts(s.latch.sleeping, s.own, s.gets, Min(|s.gets|, |s.puts|));
    RemoveUnowned(s.latch.sleeping, s.own, s.gets, m, i);
  }

  /** A sleeper owns a slot exactly when its cookie can be read or is about to be written. */
  lemma OwnsSlotIffChosen<T>(s: System<T>, who: Sleeper)
    requires Distinct(s.latch.sleeping) && Cookies(s) && who in s.latch.sleeping
    ensures IndexOf(s.latch.sleeping, who) < s.latch.waking <==> who in s.unwritten || who in s.readable
  {
    var i, q := IndexOf(s.latch.sleeping, who), s.latch.sleeping[..s.latch.waking];
    if i < s.latch.waking {
      assert q[i] == who;
    } else {
      assert forall k :: 0 <= k < |q| ==> q[k] != who;
    }
  }

  lemma ExpireKeeps<T>(s: System<T>, e: Event<T>)
    requires Inv(s) && Safe(s, e) && e.Expire?
    ensures Inv(Apply(s, e))
  {
    hide SleepersBlock, Cookies, Distinct, Matching, Fifo, Rise;
    OwnsSlotIffChosen(s, e.who);
    LeavingBlocks(s, e);
    ExpireCookies(s, e);
    if !s.latch.closed {
      ExpireMatches(s, e);
    }
  }

  lemma ExpireCookies<T>(s: System<T>, e: Event<T>)
    requires Distinct(s.latch.sleeping) && Cookies(s) && Safe(s, e) && e.Expire?
    requires IndexOf(s.latch.sleeping, e.who) >= s.latch.waking
    ensures var s' := Apply(s, e);
            && Cookies(s') && Distinct(s'.latch.sleeping) && s'.latch.closed == s.latch.closed
            && s'.latch.waking == s.latch.waking < |s.latch.sleeping|
  {
    assert Apply(s, e).latch.sleeping[..s.latch.waking] == s.latch.sleeping[..s.latch.waking];
  }

  lemma CookieAndCloseKeep<T>(s: System<T>, e: Event<T>)
    requires Inv(s) && Enabled(s, e) && (e.WriteCookie? || e.CloseCall?)
    ensures Inv(Apply(s, e))
  {
    if e.CloseCall? {
      var w, q := s.latch.waking, s.latch.sleeping;
      assert q == q[..w] + q[w..];
      assert q[..|q|] == q;
      assert SetOf(q) == SetOf(q[..w]) + SetOf(q[w..]);
      assert forall k :: w <= k < |q| ==> q[k] !in q[..w];
      assert s.unwritten !! SetOf(q[w..]);
    }
  }

  /** Every step but the expiry of a sleeper that was chosen keeps the whole matching. */
  lemma SafeStepKeeps<T>(s: System<T>, e: Event<T>)
    requires Inv(s) && Safe(s, e)
    ensures Inv(Apply(s, e))
  {
    match e
    case GetCall(_, _) => EnterKeeps(s, e);
    case Wake(_) => WakeKeeps(s, e);
    case Expire(_) => ExpireKeeps(s, e);
    case PutCall(_) => PutKeeps(s, e);
    case _ => CookieAndCloseKeep(s, e);
  }

  // ---------------------------------------------------------------- whole runs

  predicate SafeRun<T>(s: System<T>, events: seq<Event<T>>)
    decreases |events|
  {
    events == [] || (Safe(s, events[0]) && SafeRun(Apply(s, events[0]), events[1..]))
  }

  function Run<T>(s: System<T>, events: seq<Event<T>>): System<T>
    requires SafeRun(s, events)
    decreases |events|
  {
    if events == [] then s else Run(Apply(s, events[0]), events[1..])
  }

  function Fresh<T>(): System<T> { System(LatchState([], [], 0, false), {}, {}, [], [], [], map[], map[]) }

  lemma {:induction false} RunKeeps<T>(s: System<T>, events: seq<Event<T>>)
    requires Inv(s) && SafeRun(s, events)
    ensures Inv(Run(s, events))
    decreases |events|
  {
    if events != [] {
      SafeStepKeeps(s, events[0]);
      RunKeeps(Apply(s, events[0]), events[1..]);
    }
  }

  /**
   After any run from a fresh latch: the n-th get (expired ones apart) returns the n-th value put;
   every value whose turn has come has been returned or sits in the slot of the woken sleeper it
   belongs to, so none is lost or duplicated; while the latch is open as many sleepers are woken
   as there are values for them, and after `close` all of them are; and each sleeper asked to block.
   */
  lemma EveryRunIsFifo<T>(events: seq<Event<T>>)
    requires SafeRun(Fresh(), events)
    ensures var s := Run(Fresh(), events); var l := s.latch;
            && (forall n :: n in s.results ==> n < |s.gets| && n < |s.puts| && s.results[n] == s.puts[n])
            && (!l.closed ==>
                  && l.waking == Min(|l.queue|, |l.sleeping|) == |s.own|
                  && (forall i :: 0 <= i < l.waking ==>
                        && s.own[i] < |s.gets| && s.own[i] < |s.puts| && s.own[i] !in s.results
                        && l.sleeping[i] == s.gets[s.own[i]] && l.queue[i] == s.puts[s.own[i]])
                  && (forall n :: 0 <= n < Min(|s.gets|, |s.puts|) ==> n in s.results || n in s.own))
            && (forall i :: 0 <= i < |l.sleeping| && (l.closed || i < l.waking) ==>
                  l.sleeping[i] in s.unwritten || l.sleeping[i] in s.readable)
            && (forall who :: who in l.sleeping ==> who in s.blocks && s.blocks[who])
  {
    RunKeeps<T>(Fresh(), events);
    var s := Run(Fresh(), events);
    var l := s.latch;
    if !l.closed {
      var m := Min(|s.gets|, |s.puts|);
      forall i | 0 <= i < l.waking
        ensures l.sleeping[i] == s.gets[s.own[i]] && l.queue[i] == s.puts[s.own[i]]
      {
        assert Position(s.own, m, i) == s.own[i];
      }
    }
    forall i | 0 <= i < |l.sleeping| && (l.closed || i < l.waking)
      ensures l.sleeping[i] in s.unwritten || l.sleeping[i] in s.readable
    {
      assert l.sleeping[i] == l.sleeping[..l.waking][i];
    }
  }

  // ---------------------------------------------------------------- what each call answers

  /**
   A get takes the value put for it if there has been such a `put`: there are more puts than gets. Otherwise
   it times out and changes nothing, or goes to sleep if it was asked to block.
   */
  lemma GetAnswers<T>(s: System<T>, who: Sleeper, block: bool)
    requires Inv(s) && !s.latch.closed
    ensures var (l, r) := Enter(s.latch, who, block);
            if |s.gets| < |s.puts| then r == Item(s.puts[|s.gets|]) && l.sleeping == s.latch.sleeping
            else if block then r == Asleep && l == s.latch.(sleeping := s.latch.sleeping + [who])
            else r == TimedOut && l == s.latch
  {
    if |s.gets| < |s.puts| {
      assert Position(s.own, |s.gets|, |s.own|) == |s.gets|;
    }
  }

  /** A put wakes the get its value is for, if that get is there. Otherwise it notifies. */
  lemma PutAnswers<T>(s: System<T>, x: T)
    requires Inv(s) && !s.latch.closed
    ensures var (l, r) := Put(s.latch, x);
            && r == (if |s.puts| < |s.gets| then Woke(s.gets[|s.puts|]) else Notify)
            && l.queue == s.latch.queue + [x] && l.sleeping == s.latch.sleeping
            && l.waking == s.latch.waking + if r.Woke? then 1 else 0
  {
    if |s.puts| < |s.gets| {
      assert Position(s.own, |s.puts|, |s.own|) == |s.puts|;
    }
  }

  /** A poll that ends without a cookie is a timeout. It leaves the queue and the other sleepers as they were. */
  lemma ExpiryAnswers<T>(s: System<T>, who: Sleeper, failed: bool)
    requires Distinct(s.latch.sleeping) && who in s.latch.sleeping
    ensures var (l, r) := Rise(s.latch, who, failed, who in s.readable);
            && (r.TimedOut? <==> who !in s.readable)
            && (r.Raised? <==> who in s.readable && failed)
            && (r.TimedOut? || r.Raised? ==>
                  && l == s.latch.(sleeping := l.sleeping) && who !in l.sleeping
                  && multiset(l.sleeping) == multiset(s.latch.sleeping) - multiset{who})
  {
    LeaveSleepers(s.latch.sleeping, IndexOf(s.latch.sleeping, who));
  }

  lemma LeaveSleepers(q: seq<Sleeper>, i: nat)
    requires Distinct(q) && i < |q|
    ensures q[i] !in RemoveAt(q, i) && multiset(RemoveAt(q, i)) == multiset(q) - multiset{q[i]}
  {
    assert q == q[..i] + [q[i]] + q[i + 1..];
    forall k | 0 <= k < |RemoveAt(q, i)| ensures RemoveAt(q, i)[k] != q[i] {
      assert q[if k < i then k else k + 1] == RemoveAt(q, i)[k];
    }
  }

  /** `close` writes to exactly those who neither can read a cookie nor are owed one. */
  lemma CloseAnswers<T>(s: System<T>, who: Sleeper)
    requires Inv(s)
    ensures who in Unwoken(s.latch) <==>
            who in s.latch.sleeping && who !in s.unwritten && who !in s.readable
    ensures Close(s.latch).closed
  {
    var q, w := s.latch.sleeping, s.latch.waking;
    assert q == q[..w] + q[w..];
    assert forall k :: w <= k < |q| ==> q[k] !in q[..w];
  }

  /** After `close` nothing is put or got any more: whoever was asleep is told that the latch is closed. */
  lemma {:induction false} ClosedForGood<T>(s: System<T>, events: seq<Event<T>>)
    requires Inv(s) && s.latch.closed && SafeRun(s, events)
    ensures var s' := Run(s, events);
            s'.latch.closed && s'.latch.queue == s.latch.queue && SetOf(s'.latch.sleeping) <= SetOf(s.latch.sleeping)
            && s'.gets == s.gets && s'.puts == s.puts && s'.results == s.results
    decreases |events|
  {
    if events != [] {
      ClosedStep(s, events[0]);
      SafeStepKeeps(s, events[0]);
      ClosedForGood(Apply(s, events[0]), events[1..]);
    }
  }

  lemma ClosedStep<T>(s: System<T>, e: Event<T>)
    requires Inv(s) && s.latch.closed && Safe(s, e)
    ensures var s' := Apply(s, e);
            s'.latch.closed && s'.latch.queue == s.latch.queue && SetOf(s'.latch.sleeping) <= SetOf(s.latch.sleeping)
            && s'.gets == s.gets && s'.puts == s.puts && s'.results == s.results
    ensures e.GetCall? ==> Enter(s.latch, e.who, e.block) == (s.latch, Closed)
    ensures e.PutCall? ==> Put(s.latch, e.x) == (s.latch, Refused)
    ensures e.Wake? ==> Rise(s.latch, e.who, false, true).1 == Closed
  {
    if e.Wake? {
      WakeOutcome(s, e.who);
    } else if e.Expire? {
      OwnsSlotIffChosen(s, e.who);
    }
  }

  /** What `size` answers on an open latch: the values put and not returned yet. */
  lemma SizeCountsUnreturned<T>(s: System<T>)
    requires Inv(s) && !s.latch.closed
    ensures |s.latch.queue| == |s.puts| - |s.results|
  {
    var m := Min(|s.gets|, |s.puts|);
    assert forall n: nat :: n in s.results.Keys <==> n < m && n !in s.own;
    CountsUp(s.own, s.results.Keys, m);
    assert |s.results.Keys| == |s.results|;
  }

  lemma {:induction false} CountsUp(own: seq<nat>, others: set<nat>, m: nat)
    requires forall j, k :: 0 <= j < k < |own| ==> own[j] < own[k]
    requires forall k :: 0 <= k < |own| ==> own[k] < m
    requires forall n: nat :: n in others <==> n < m && n !in own
    ensures |own| + |others| == m
    decreases m
  {
    if m == 0 {
      assert others == {};
    } else if own != [] && own[|own| - 1] == m - 1 {
      var own' := own[..|own| - 1];
      assert own == own' + [m - 1];
      CountsUp(own', others, m - 1);
    } else {
      assert m - 1 !in own by {
        assert forall k :: 0 <= k < |own| ==> own[k] <= own[|own| - 1];
      }
      CountsUp(own, others - {m - 1}, m - 1);
    }
  }

  // ---------------------------------------------------------------- expiries

  /** Each sleeper that is counted as woken is there, with a cookie to read or one about to be written. */
  ghost predicate Woken<T>(s: System<T>)
  {
    && s.latch.waking <= |s.latch.sleeping|
    && forall i :: 0 <= i < s.latch.waking ==>
      s.latch.sleeping[i] in s.unwritten || s.latch.sleeping[i] in s.readable
  }

  /**
   An expiry keeps the slots and the sleepers matched exactly when no cookie is there or on its way. Otherwise
   a sleeper is counted as woken that has none, or `waking` counts one that is not there.
   */
  lemma ExpiryKeepsMatchingIff<T>(s: System<T>, who: Sleeper)
    requires Inv(s) && Enabled(s, Expire(who))
    ensures Woken(s)
    ensures Woken(Apply(s, Expire(who))) <==> who !in s.unwritten && who !in s.readable
    ensures !s.latch.closed ==>
      (Matching(Apply(s, Expire(who))) <==> who !in s.unwritten && who !in s.readable)
  {
    hide Matching, Fifo;
    OwnsSlotIffChosen(s, who);
    ChosenAreWoken(s);
    if who !in s.unwritten && who !in s.readable {
      ExpireKeeps(s, Expire(who));
      ChosenAreWoken(Apply(s, Expire(who)));
    } else {
      ExpiryStrandsOne(s, who);
      if !s.latch.closed {
        ExpiryUnmatches(s, who);
      }
    }
  }

  lemma ChosenAreWoken<T>(s: System<T>)
    requires Cookies(s)
    ensures Woken(s)
  {
    forall i | 0 <= i < s.latch.waking
      ensures s.latch.sleeping[i] in s.unwritten || s.latch.sleeping[i] in s.readable
    {
      assert s.latch.sleeping[i] == s.latch.sleeping[..s.latch.waking][i];
    }
  }

  /** The sleeper after those that were chosen, if there is one, moves up among them. */
  lemma ExpiryStrandsOne<T>(s: System<T>, who: Sleeper)
    requires Distinct(s.latch.sleeping) && Cookies(s) && who in s.latch.sleeping
    requires IndexOf(s.latch.sleeping, who) < s.latch.waking
    ensures !Woken(Apply(s, Expire(who)))
  {
    var s', w := Apply(s, Expire(who)), s.latch.waking;
    if w <= |s'.latch.sleeping| {
      var next := s.latch.sleeping[w];
      assert s'.latch.sleeping[w - 1] == next;
      assert next !in s.latch.sleeping[..w];
    }
  }

  lemma ExpiryUnmatches<T>(s: System<T>, who: Sleeper)
    requires Matching(s) && who in s.latch.sleeping && IndexOf(s.latch.sleeping, who) < s.latch.waking
    ensures !Matching(Apply(s, Expire(who)))
  {
  }

  /**
   An expiry in that gap loses a wake-up for good: the value goes to another get, but `waking`
   stays raised, so a later sleeper is not woken by the value put for it.
   */
  lemma GapExpiryLosesWakeup()
    ensures !Safe(InTheGap(), Expire(1))
    ensures Enter(AfterTheGap().latch, 2, true).1 == Item(10)
    ensures var s := AsleepForGood();
            s.latch.queue == [20] && s.latch.sleeping == [3] && 3 !in s.unwritten && 3 !in s.readable
  {
    var c := Apply(AfterTheGap(), GetCall(2, true));
    assert c.latch == LatchState([], [], 1, false);
    var d := Apply(c, GetCall(3, true));
    assert d.latch == LatchState([], [3], 1, false);
  }

  /** A `put` has assigned its value to the sleeping thread 1, and not yet written the cookie. */
  function InTheGap(): (s: System<int>)
    ensures s.latch == LatchState([10], [1], 1, false) && s.unwritten == {1} && s.readable == {}
    ensures Enabled(s, Expire(1))
  {
    var a := Apply(Fresh<int>(), GetCall(1, true));
    assert a.latch == LatchState([], [1], 0, false);
    Apply(a, PutCall(10))
  }

  /** Thread 1 times out; the cookie is written too late. */
  function AfterTheGap(): (s: System<int>)
    ensures s.latch == LatchState([10], [], 1, false) && s.unwritten == {}
    ensures Enabled(s, GetCall(2, true)) && 3 !in s.readable
  {
    Apply(Apply(InTheGap(), Expire(1)), WriteCookie(1))
  }

  /** Thread 2 gets the value, thread 3 goes to sleep, and another value is put. */
  function AsleepForGood(): System<int>
  {
    var c := Apply(AfterTheGap(), GetCall(2, true));
    assert c.latch == LatchState([], [], 1, false);
    Apply(Apply(c, GetCall(3, true)), PutCall(20))
  }
}
