/**
 The allocation of context ids: the master counts up, and gives children blocks to count through by
 themselves.
 */
module IdAllocation {
  import opened Seqs

  const BLOCK_SIZE := 1000

  /** What is left of `xrange(start, end)`. */
  datatype Range = Range(start: nat, end: nat)

  class IdAllocator {
    var nextId: nat

    constructor ()
      ensures nextId == 1
    {
      nextId := 1;
    }

    method Allocate() returns (id: nat)
      modifies this
      ensures id == old(nextId) && nextId == id + 1
    {
      id := nextId;
      nextId := nextId + 1;
    }

    method AllocateBlock() returns (id: nat, endId: nat)
      modifies this
      ensures id == old(nextId) && nextId == endId == id + BLOCK_SIZE
    {
      id := nextId;
      nextId := nextId + BLOCK_SIZE;
      endId := id + BLOCK_SIZE;
    }
  }

  class ChildIdAllocator {
    var it: Range

    constructor ()
      ensures it == Range(0, 0)
    {
      it := Range(0, 0);
    }

    /** With nobody else allocating in between, one block request is enough and the call returns. */
    method Allocate(master: IdAllocator) returns (id: nat)
      modifies this, master
      ensures old(it.start < it.end) ==>
        id == old(it.start) && it == Range(id + 1, old(it.end)) && master.nextId == old(master.nextId)
      ensures old(it.start >= it.end) ==>
        id == old(master.nextId) && it == Range(id + 1, id + BLOCK_SIZE) && master.nextId == id + BLOCK_SIZE
      decreases it.start >= it.end
    {
      if it.start < it.end {
        id := it.start;
        it := Range(id + 1, it.end);
        return;
      }
      var start, end := master.AllocateBlock();
      it := Range(start, end);
      id := Allocate(master);
    }
  }

  // ---------------------------------------------------------------- the master and its children

  datatype Reply = Reply(to: nat, ids: Range)

  /**
   Children are numbered. A child that asks for a block holds its lock, and is in `waiting`, until the answer has
   come. `handed` is every id given out so far, by anybody, and `lost` are the blocks that never arrived.
   */
  datatype Sys = Sys(
    next: nat,
    requests: seq<nat>,
    replies: seq<Reply>,
    its: seq<Range>,
    waiting: set<nat>,
    handed: seq<nat>,
    lost: seq<Range>)

  datatype Event =
    | Local           // the master allocates an id for itself
    | Ask(c: nat)     // a child out of ids asks for a block
    | Grant(i: nat)   // the master answers
    | Receive(i: nat) // the child gets the block
    | Take(c: nat)    // a child takes an id from its block
    | Lose(i: nat)    // an answer is lost

  predicate Enabled(sys: Sys, e: Event)
  {
    match e
    case Local => true
    case Ask(c) => c < |sys.its| && sys.its[c].start >= sys.its[c].end && c !in sys.waiting
    case Grant(i) => i < |sys.requests|
    case Receive(i) => i < |sys.replies| && sys.replies[i].to < |sys.its|
    case Take(c) => c < |sys.its| && sys.its[c].start < sys.its[c].end
    case Lose(i) => i < |sys.replies|
  }

  function Apply(sys: Sys, e: Event): Sys
    requires Enabled(sys, e)
  {
    match e
    case Local => sys.(next := sys.next + 1, handed := sys.handed + [sys.next])
    case Ask(c) => sys.(requests := sys.requests + [c], waiting := sys.waiting + {c})
    case Grant(i) =>
      sys.(next := sys.next + BLOCK_SIZE, requests := RemoveAt(sys.requests, i),
           replies := sys.replies + [Reply(sys.requests[i], Range(sys.next, sys.next + BLOCK_SIZE))])
    case Receive(i) =>
      var r := sys.replies[i];
      sys.(replies := RemoveAt(sys.replies, i), its := sys.its[r.to := r.ids], waiting := sys.waiting - {r.to})
    case Take(c) =>
      var ids := sys.its[c];
      sys.(its := sys.its[c := Range(ids.start + 1, ids.end)], handed := sys.handed + [ids.start])
    case Lose(i) =>
      var r := sys.replies[i];
      sys.(replies := RemoveAt(sys.replies, i), waiting := sys.waiting - {r.to}, lost := sys.lost + [r.ids])
  }

  function InF(id: nat): Range -> bool { (r: Range) => r.start <= id < r.end }
  function CarriesF(id: nat): Reply -> bool { (r: Reply) => r.ids.start <= id < r.ids.end }
  function IsF(id: nat): nat -> bool { (x: nat) => x == id }
  function ForF(c: nat): Reply -> bool { (r: Reply) => r.to == c }

  /** In how many places an id is: given out, in a child's block, in a block on its way, or lost with one. */
  ghost function Places(sys: Sys, id: nat): nat
  {
    Count(sys.handed, IsF(id)) + Count(sys.its, InF(id)) + Count(sys.replies, CarriesF(id)) + Count(sys.lost, InF(id))
  }

  /** The requests of a child that are not answered yet, or whose answer has not come. */
  ghost function Outstanding(sys: Sys, c: nat): nat
  {
    Count(sys.requests, IsF(c)) + Count(sys.replies, ForF(c))
  }

  /** Every id that was counted is in one place, and no other is anywhere. */
  ghost predicate Placed(sys: Sys)
  {
    sys.next >= 1 && forall id: nat :: Places(sys, id) == (if 1 <= id < sys.next then 1 else 0)
  }

  /** A child waits for one answer at a time, and only while its block is used up. */
  ghost predicate Patient(sys: Sys)
  {
    && (forall c: nat :: Outstanding(sys, c) == (if c in sys.waiting then 1 else 0))
    && (forall c :: c in sys.waiting ==> c < |sys.its| && sys.its[c].start >= sys.its[c].end)
  }

  ghost predicate Inv(sys: Sys)
  {
    Placed(sys) && Patient(sys)
  }

  lemma ReplyIsAwaited(sys: Sys, i: nat)
    requires Patient(sys) && i < |sys.replies|
    ensures sys.replies[i].to in sys.waiting
  {
    CountRemove(sys.replies, i, ForF(sys.replies[i].to));
    assert Outstanding(sys, sys.replies[i].to) >= 1;
  }

  lemma StepPlaces(sys: Sys, e: Event, id: nat)
    requires Inv(sys) && Enabled(sys, e)
    ensures Places(Apply(sys, e), id) == if 1 <= id < Apply(sys, e).next then 1 else 0
  {
    hide Count, Patient;
    assert Places(sys, id) == if 1 <= id < sys.next then 1 else 0;
    match e
    case Local => CountSnoc(sys.handed, sys.next, IsF(id));
    case Ask(c) =>
    case Grant(i) =>
      CountSnoc(sys.replies, Reply(sys.requests[i], Range(sys.next, sys.next + BLOCK_SIZE)), CarriesF(id));
    case Receive(i) =>
      ReplyIsAwaited(sys, i);
      BlockIsUsedUp(sys, sys.replies[i].to);
      CountRemove(sys.replies, i, CarriesF(id));
      CountUpdate(sys.its, sys.replies[i].to, sys.replies[i].ids, InF(id));
    case Take(c) =>
      CountSnoc(sys.handed, sys.its[c].start, IsF(id));
      CountUpdate(sys.its, c, Range(sys.its[c].start + 1, sys.its[c].end), InF(id));
    case Lose(i) =>
      CountRemove(sys.replies, i, CarriesF(id));
      CountSnoc(sys.lost, sys.replies[i].ids, InF(id));
  }

  lemma BlockIsUsedUp(sys: Sys, c: nat)
    requires Patient(sys) && c in sys.waiting
    ensures c < |sys.its| && sys.its[c].start >= sys.its[c].end
  {
  }

  lemma StepOutstanding(sys: Sys, e: Event, c: nat)
    requires Patient(sys) && Enabled(sys, e)
    ensures Outstanding(Apply(sys, e), c) == if c in Apply(sys, e).waiting then 1 else 0
  {
    hide Count;
    assert Outstanding(sys, c) == if c in sys.waiting then 1 else 0;
    match e
    case Ask(x) => CountSnoc(sys.requests, x, IsF(c));
    case Grant(i) =>
      CountRemove(sys.requests, i, IsF(c));
      CountSnoc(sys.replies, Reply(sys.requests[i], Range(sys.next, sys.next + BLOCK_SIZE)), ForF(c));
    case Receive(i) => CountRemove(sys.replies, i, ForF(c));
    case Lose(i) => CountRemove(sys.replies, i, ForF(c));
    case _ =>
  }

  lemma StepKeeps(sys: Sys, e: Event)
    requires Inv(sys) && Enabled(sys, e)
    ensures Inv(Apply(sys, e))
  {
    var sys' := Apply(sys, e);
    forall id: nat ensures Places(sys', id) == if 1 <= id < sys'.next then 1 else 0 {
      StepPlaces(sys, e, id);
    }
    forall c: nat ensures Outstanding(sys', c) == if c in sys'.waiting then 1 else 0 {
      StepOutstanding(sys, e, c);
    }
  }

  predicate CanRun(sys: Sys, events: seq<Event>)
    decreases |events|
  {
    events == [] || (Enabled(sys, events[0]) && CanRun(Apply(sys, events[0]), events[1..]))
  }

  function Run(sys: Sys, events: seq<Event>): Sys
    requires CanRun(sys, events)
    decreases |events|
  {
    if events == [] then sys else Run(Apply(sys, events[0]), events[1..])
  }

  /** Any number of children, with no block yet. */
  function Start(children: nat): Sys
  {
    Sys(1, [], [], seq(children, _ => Range(0, 0)), {}, [], [])
  }

  lemma {:induction false} RunKeeps(sys: Sys, events: seq<Event>)
    requires Inv(sys) && CanRun(sys, events)
    ensures Inv(Run(sys, events))
    decreases |events|
  {
    hide Inv, Apply, Enabled;
    if events != [] {
      StepKeeps(sys, events[0]);
      RunKeeps(Apply(sys, events[0]), events[1..]);
    }
  }

  lemma StartIsOk(children: nat)
    ensures Inv(Start(children))
  {
    var sys := Start(children);
    forall id: nat ensures Places(sys, id) == 0 {
      CountNone(sys.its, InF(id));
      CountNone(sys.handed, IsF(id));
      CountNone(sys.replies, CarriesF(id));
    }
    forall c: nat ensures Outstanding(sys, c) == 0 {
      CountNone(sys.requests, IsF(c));
    }
  }

  /**
   And none is forgotten: each id counted so far has been given out, or is in the block of one child, or in one
   block on its way, or in one that was lost. Each child that waits has one request or answer on the way.
   */
  lemma NoIdIsForgotten(children: nat, events: seq<Event>, id: nat, c: nat)
    requires CanRun(Start(children), events)
    ensures var sys := Run(Start(children), events);
            && Count(sys.handed, IsF(id)) + Count(sys.its, InF(id)) + Count(sys.replies, CarriesF(id))
               + Count(sys.lost, InF(id)) == (if 1 <= id < sys.next then 1 else 0)
            && Count(sys.requests, IsF(c)) + Count(sys.replies, ForF(c)) == (if c in sys.waiting then 1 else 0)
  {
    StartIsOk(children);
    RunKeeps(Start(children), events);
    var sys := Run(Start(children), events);
    assert Places(sys, id) == (if 1 <= id < sys.next then 1 else 0);
    assert Outstanding(sys, c) == (if c in sys.waiting then 1 else 0);
  }

  /** No id is ever given out twice, and none of them is zero, the master's own. */
  lemma IdsAreUnique(children: nat, events: seq<Event>)
    requires CanRun(Start(children), events)
    ensures var sys := Run(Start(children), events); Distinct(sys.handed) && 0 !in sys.handed
  {
    StartIsOk(children);
    RunKeeps(Start(children), events);
    var sys := Run(Start(children), events);
    assert Places(sys, 0) == 0;
    CountNone(sys.handed, IsF(0));
    forall i, j | 0 <= i < j < |sys.handed| ensures sys.handed[i] != sys.handed[j] {
      var id := sys.handed[i];
      assert Places(sys, id) <= 1;
      if sys.handed[j] == id {
        CountRemove(sys.handed, i, IsF(id));
        assert RemoveAt(sys.handed, i)[j - 1] == id;
        CountNone(RemoveAt(sys.handed, i), IsF(id));
      }
    }
  }
}
