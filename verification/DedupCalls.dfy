/**
 `DeduplicatingInvoker` under concurrency. Each region that holds its lock is one step, and so is each
 call of the service method, which happens outside it. Sending a response can fail: a value that cannot be
 pickled makes every reply with it raise an exception.
 */
module DedupCalls {
  import opened Seqs

  type Req = nat

  type Key = string

  /** What a service method gives: a value, an exception turned into text, or the sentinel that asks for no reply. */
  datatype Response = Value(id: nat, picklable: bool) | Failure(id: nat) | NoReply
  {
    predicate Sends() { Value? ==> picklable }
  }

  datatype State = State(responses: map<Key, Response>, waiters: map<Key, seq<Req>>)

  /** How a request fares in the first locked region of `_invoke`. */
  datatype Role = Late | Joined | Leader

  function Begin(d: State, key: Key, req: Req): (State, Role)
  {
    if key in d.responses then (d, Late)
    else if key in d.waiters then (d.(waiters := d.waiters[key := d.waiters[key] + [req]]), Joined)
    else (d.(waiters := d.waiters[key := [req]]), Leader)
  }

  /** `_produce_response` has two assertions. */
  predicate AssertsHold(d: State, key: Key)
  {
    key !in d.responses && key in d.waiters
  }

  /** What follows them: the new state, who is replied to, and whether the first reply raised an exception. */
  function Publish(d: State, key: Key, r: Response): (State, seq<Req>, bool)
    requires AssertsHold(d, key)
  {
    var d' := State(d.responses[key := r], d.waiters - {key});
    if r.Sends() then (d', d.waiters[key], false) else (d', [], d.waiters[key] != [])
  }

  class DeduplicatingInvoker {
    var responses: map<Key, Response>
    var waiters: map<Key, seq<Req>>

    ghost function Value(): State
      reads this
    {
      State(responses, waiters)
    }

    method BeginRequest(key: Key, req: Req) returns (role: Role)
      modifies this
      ensures (Value(), role) == old(Begin(Value(), key, req))
    {
      if key in responses {
        return Late;
      }
      if key in waiters {
        waiters := waiters[key := waiters[key] + [req]];
        return Joined;
      }
      waiters := waiters[key := [req]];
      return Leader;
    }

    /** `asserted` is false where one of the assertions fails. */
    method ProduceResponse(key: Key, r: Response) returns (asserted: bool, replied: seq<Req>, raised: bool)
      modifies this
      ensures asserted <==> old(AssertsHold(Value(), key))
      ensures asserted ==> (Value(), replied, raised) == old(Publish(Value(), key, r))
      ensures !asserted ==> Value() == old(Value()) && replied == [] && !raised
    {
      if key in responses || key !in waiters {
        return false, [], false;
      }
      responses := responses[key := r];
      var msgs := waiters[key];
      waiters := waiters - {key};
      replied := [];
      for i := 0 to |msgs|
        invariant replied == msgs[..i] && (i > 0 ==> r.Sends())
      {
        if !r.Sends() {
          return true, replied, true;
        }
        replied := replied + [msgs[i]];
      }
      assert msgs[..|msgs|] == msgs;
      return true, replied, false;
    }
  }

  // ---------------------------------------------------------------- threads

  /**
   A pool thread: to call the method, to publish what it gave, to publish instead the exception that
   publishing raised, or to hand back a response that was known already.
   */
  datatype Thread =
    | Producing(key: Key, req: Req)
    | Computed(key: Key, req: Req, r: Response)
    | Retrying(key: Key, req: Req)
    | Returning(key: Key, req: Req, r: Response)

  /** How a request is dealt with: a reply, none where `invoke` withholds it, or the pool's report of an exception. */
  datatype How = Replied(r: Response) | Withheld | Errored

  datatype Answer = Answer(req: Req, how: How)

  datatype Ask = Ask(key: Key, role: Role)

  /**
   `asked` is every request made, `runs` the calls of the method, `failed` the keys for which an assertion
   failed. `dropped` are waiters that nobody will answer any more.
   */
  datatype Sys = Sys(
    d: State,
    threads: seq<Thread>,
    asked: map<Req, Ask>,
    answers: seq<Answer>,
    dropped: seq<Req>,
    runs: seq<Key>,
    failed: seq<Key>)

  datatype Event =
    | Request(req: Req, key: Key)
    | Call(i: nat, r: Response)
    | Produce(i: nat)
    | Return(i: nat)

  predicate Enabled(sys: Sys, e: Event)
  {
    match e
    case Request(req, _) => req !in sys.asked
    case Call(i, _) => i < |sys.threads| && sys.threads[i].Producing?
    case Produce(i) => i < |sys.threads| && (sys.threads[i].Computed? || sys.threads[i].Retrying?)
    case Return(i) => i < |sys.threads| && sys.threads[i].Returning?
  }

  function Started(role: Role, key: Key, req: Req, d: State): seq<Thread>
    requires role.Late? ==> key in d.responses
  {
    match role
    case Late => [Returning(key, req, d.responses[key])]
    case Joined => []
    case Leader => [Producing(key, req)]
  }

  function Replies(reqs: seq<Req>, r: Response): (a: seq<Answer>)
    ensures |a| == |reqs| && forall k :: 0 <= k < |a| ==> a[k] == Answer(reqs[k], Replied(r))
  {
    if reqs == [] then [] else Replies(reqs[..|reqs| - 1], r) + [Answer(reqs[|reqs| - 1], Replied(r))]
  }

  function Apply(sys: Sys, e: Event): Sys
    requires Enabled(sys, e)
  {
    match e
    case Request(req, key) =>
      var (d, role) := Begin(sys.d, key, req);
      sys.(d := d, asked := sys.asked[req := Ask(key, role)], threads := sys.threads + Started(role, key, req, sys.d))
    case Call(i, r) =>
      var t := sys.threads[i];
      sys.(threads := sys.threads[i := Computed(t.key, t.req, r)], runs := sys.runs + [t.key])
    case Produce(i) => Produced(sys, i)
    case Return(i) =>
      var t := sys.threads[i];
      var how := if t.r == NoReply then Withheld else if t.r.Sends() then Replied(t.r) else Errored;
      sys.(threads := RemoveAt(sys.threads, i), answers := sys.answers + [Answer(t.req, how)])
  }

  /**
   A failing assertion ends in the pool, which reports it to the request that the thread works for. An
   exception raised by the first reply leads to the second call, with that exception as the response.
   */
  function Produced(sys: Sys, i: nat): Sys
    requires Enabled(sys, Produce(i))
  {
    var t := sys.threads[i];
    if !AssertsHold(sys.d, t.key) then
      sys.(threads := RemoveAt(sys.threads, i), answers := sys.answers + [Answer(t.req, Errored)],
           failed := sys.failed + [t.key])
    else
      var r := if t.Computed? then t.r else Failure(0);
      var (d, replied, raised) := Publish(sys.d, t.key, r);
      if raised then
        sys.(d := d, threads := sys.threads[i := Retrying(t.key, t.req)],
             dropped := sys.dropped + sys.d.waiters[t.key][1..])
      else
        sys.(d := d, threads := RemoveAt(sys.threads, i), answers := sys.answers + Replies(replied, r))
  }

  // ---------------------------------------------------------------- invariants

  function WorksOnF(key: Key): Thread -> bool { (t: Thread) => (t.Producing? || t.Computed?) && t.key == key }
  function HasRunF(key: Key): Thread -> bool { (t: Thread) => t.Computed? && t.key == key }
  function RetriesF(key: Key): Thread -> bool { (t: Thread) => t.Retrying? && t.key == key }
  function CarriesF(req: Req): Thread -> bool { (t: Thread) => (t.Returning? || t.Retrying?) && t.req == req }
  function AnswersF(req: Req): Answer -> bool { (a: Answer) => a.req == req }
  function ReqF(req: Req): Req -> bool { (x: Req) => x == req }
  function KeyF(key: Key): Key -> bool { (x: Key) => x == key }

  function WaitersOf(d: State, key: Key): seq<Req>
  {
    if key in d.waiters then d.waiters[key] else []
  }

  /** The response of `key` is known and cannot be sent. */
  predicate Unsendable(d: State, key: Key)
  {
    key in d.responses && !d.responses[key].Sends()
  }

  ghost predicate KeyOk(sys: Sys, key: Key)
  {
    && !(key in sys.d.waiters && key in sys.d.responses)
    && Count(sys.threads, WorksOnF(key)) == (if key in sys.d.waiters then 1 else 0)
    && Count(sys.runs, KeyF(key)) == Count(sys.threads, HasRunF(key)) + (if key in sys.d.responses then 1 else 0)
    && Count(sys.threads, RetriesF(key)) + Count(sys.failed, KeyF(key)) == (if Unsendable(sys.d, key) then 1 else 0)
  }

  /** A request that was made is in one place: waiting, with a thread, answered, or dropped. */
  ghost predicate ReqOk(sys: Sys, req: Req)
  {
    Count(sys.threads, CarriesF(req)) + Count(sys.answers, AnswersF(req)) + Count(sys.dropped, ReqF(req))
      + (if req in sys.asked then Count(WaitersOf(sys.d, sys.asked[req].key), ReqF(req)) else 0)
      == if req in sys.asked then 1 else 0
  }

  /** What is due to a request once its key has a response; nothing for one that joined if it cannot be sent. */
  function Due(r: Response, role: Role): Option<How>
  {
    if !r.Sends() then (if role.Joined? then None else Some(Errored))
    else if r == NoReply && role.Late? then Some(Withheld)
    else Some(Replied(r))
  }

  predicate GetsDue(sys: Sys, req: Req, how: Option<How>)
  {
    && req in sys.asked && sys.asked[req].key in sys.d.responses
    && how == Due(sys.d.responses[sys.asked[req].key], sys.asked[req].role)
  }

  /** The first waiter leads, the others joined. */
  ghost predicate Queue(sys: Sys, key: Key, reqs: seq<Req>)
  {
    && reqs != []
    && forall k :: 0 <= k < |reqs| ==>
         reqs[k] in sys.asked && sys.asked[reqs[k]] == Ask(key, if k == 0 then Leader else Joined)
  }

  predicate ThreadOk(sys: Sys, t: Thread)
  {
    match t
    case Producing(key, req) => key in sys.d.waiters && sys.d.waiters[key] != [] && sys.d.waiters[key][0] == req
    case Computed(key, req, _) => key in sys.d.waiters && sys.d.waiters[key] != [] && sys.d.waiters[key][0] == req
    case Retrying(key, req) => Unsendable(sys.d, key) && req in sys.asked && sys.asked[req] == Ask(key, Leader)
    case Returning(key, req, r) =>
      key in sys.d.responses && sys.d.responses[key] == r && req in sys.asked && sys.asked[req] == Ask(key, Late)
  }

  ghost predicate ValuesOk(sys: Sys)
  {
    && (forall key :: key in sys.d.waiters ==> Queue(sys, key, sys.d.waiters[key]))
    && (forall k :: 0 <= k < |sys.threads| ==> ThreadOk(sys, sys.threads[k]))
    && (forall k :: 0 <= k < |sys.answers| ==> GetsDue(sys, sys.answers[k].req, Some(sys.answers[k].how)))
    && (forall k :: 0 <= k < |sys.dropped| ==> GetsDue(sys, sys.dropped[k], None))
  }

  ghost predicate Inv(sys: Sys)
  {
    ValuesOk(sys) && (forall key :: KeyOk(sys, key)) && (forall req :: ReqOk(sys, req))
  }

  // ---------------------------------------------------------------- steps

  lemma CountStarted(threads: seq<Thread>, more: seq<Thread>, f: Thread -> bool)
    requires |more| <= 1
    ensures Count(threads + more, f) == Count(threads, f) + (if more != [] && f(more[0]) then 1 else 0)
  {
    if more == [] {
      assert threads + more == threads;
    } else {
      assert more == [more[0]];
      CountSnoc(threads, more[0], f);
    }
  }

  lemma RequestKeepsKey(sys: Sys, req: Req, key: Key, x: Key)
    requires KeyOk(sys, x) && Enabled(sys, Request(req, key))
    ensures KeyOk(Apply(sys, Request(req, key)), x)
  {
    hide Count;
    var more := Started(Begin(sys.d, key, req).1, key, req, sys.d);
    CountStarted(sys.threads, more, WorksOnF(x));
    CountStarted(sys.threads, more, HasRunF(x));
    CountStarted(sys.threads, more, RetriesF(x));
  }

  lemma NotYetWaiting(sys: Sys, req: Req, key: Key)
    requires ValuesOk(sys) && req !in sys.asked
    ensures Count(WaitersOf(sys.d, key), ReqF(req)) == 0
  {
    var was := WaitersOf(sys.d, key);
    if was != [] {
      assert Queue(sys, key, was);
    }
    forall w | w in was ensures !ReqF(req)(w) {
      var k :| 0 <= k < |was| && was[k] == w;
    }
    CountNone(was, ReqF(req));
  }

  lemma RequestKeepsReq(sys: Sys, req: Req, key: Key, x: Req)
    requires Enabled(sys, Request(req, key)) && ReqOk(sys, x) && Count(WaitersOf(sys.d, key), ReqF(req)) == 0
    ensures ReqOk(Apply(sys, Request(req, key)), x)
  {
    hide Count;
    var role := Begin(sys.d, key, req).1;
    CountStarted(sys.threads, Started(role, key, req, sys.d), CarriesF(x));
    var was, now := WaitersOf(sys.d, key), WaitersOf(Apply(sys, Request(req, key)).d, key);
    CountSnoc(was, req, ReqF(x));
    if role.Late? {
      assert now == was;
    } else {
      assert now == was + [req];
    }
  }

  lemma RequestKeepsValues(sys: Sys, req: Req, key: Key)
    requires ValuesOk(sys) && Enabled(sys, Request(req, key)) && !(key in sys.d.waiters && key in sys.d.responses)
    ensures ValuesOk(Apply(sys, Request(req, key)))
  {
    var sys' := Apply(sys, Request(req, key));
    forall x | x in sys'.d.waiters ensures Queue(sys', x, sys'.d.waiters[x]) {
      if x in sys.d.waiters {
        assert Queue(sys, x, sys.d.waiters[x]);
      }
    }
    forall k | 0 <= k < |sys'.threads| ensures ThreadOk(sys', sys'.threads[k]) {
      assert k < |sys.threads| ==> ThreadOk(sys, sys.threads[k]);
    }
  }

  lemma RequestKeeps(sys: Sys, req: Req, key: Key)
    requires Inv(sys) && Enabled(sys, Request(req, key))
    ensures Inv(Apply(sys, Request(req, key)))
  {
    var sys' := Apply(sys, Request(req, key));
    NotYetWaiting(sys, req, key);
    assert KeyOk(sys, key);
    RequestKeepsValues(sys, req, key);
    hide ValuesOk, Apply;
    forall x ensures KeyOk(sys', x) {
      assert KeyOk(sys, x);
      RequestKeepsKey(sys, req, key, x);
    }
    forall x ensures ReqOk(sys', x) {
      assert ReqOk(sys, x);
      RequestKeepsReq(sys, req, key, x);
    }
  }

  lemma CallKeeps(sys: Sys, i: nat, r: Response)
    requires Inv(sys) && Enabled(sys, Call(i, r))
    ensures Inv(Apply(sys, Call(i, r)))
  {
    hide Count;
    var sys', t := Apply(sys, Call(i, r)), sys.threads[i];
    var t' := Computed(t.key, t.req, r);
    forall x ensures KeyOk(sys', x) {
      assert KeyOk(sys, x);
      CountUpdate(sys.threads, i, t', WorksOnF(x));
      CountUpdate(sys.threads, i, t', HasRunF(x));
      CountUpdate(sys.threads, i, t', RetriesF(x));
      CountSnoc(sys.runs, t.key, KeyF(x));
    }
    forall x ensures ReqOk(sys', x) {
      assert ReqOk(sys, x);
      CountUpdate(sys.threads, i, t', CarriesF(x));
    }
    hide KeyOk, ReqOk;
    assert ThreadOk(sys, t);
    forall x | x in sys'.d.waiters ensures Queue(sys', x, sys'.d.waiters[x]) {
      assert Queue(sys, x, sys.d.waiters[x]);
    }
    forall k | 0 <= k < |sys'.threads| ensures ThreadOk(sys', sys'.threads[k]) {
      assert ThreadOk(sys, sys.threads[k]);
    }
  }

  lemma ReturnKeeps(sys: Sys, i: nat)
    requires Inv(sys) && Enabled(sys, Return(i))
    ensures Inv(Apply(sys, Return(i)))
  {
    hide Count;
    var sys', t := Apply(sys, Return(i)), sys.threads[i];
    var a := sys'.answers[|sys.answers|];
    forall x ensures KeyOk(sys', x) {
      assert KeyOk(sys, x);
      CountRemove(sys.threads, i, WorksOnF(x));
      CountRemove(sys.threads, i, HasRunF(x));
      CountRemove(sys.threads, i, RetriesF(x));
    }
    forall x ensures ReqOk(sys', x) {
      assert ReqOk(sys, x);
      CountRemove(sys.threads, i, CarriesF(x));
      CountSnoc(sys.answers, a, AnswersF(x));
    }
    hide KeyOk, ReqOk;
    assert ThreadOk(sys, t);
    RestKeepsValues(sys, sys', i);
  }

  /** A thread goes and what it leaves is in order; nothing else changes. */
  lemma RestKeepsValues(sys: Sys, sys': Sys, i: nat)
    requires ValuesOk(sys) && i < |sys.threads| && sys'.threads == RemoveAt(sys.threads, i)
    requires sys'.d == sys.d && sys'.asked == sys.asked && sys'.dropped == sys.dropped
    requires |sys'.answers| == |sys.answers| + 1 && sys'.answers[..|sys.answers|] == sys.answers
    requires var a := sys'.answers[|sys.answers|]; GetsDue(sys, a.req, Some(a.how))
    ensures ValuesOk(sys')
  {
    forall x | x in sys'.d.waiters ensures Queue(sys', x, sys'.d.waiters[x]) {
      assert Queue(sys, x, sys.d.waiters[x]);
    }
    forall k | 0 <= k < |sys'.threads| ensures ThreadOk(sys', sys'.threads[k]) {
      assert ThreadOk(sys, sys.threads[if k < i then k else k + 1]);
    }
    forall k | 0 <= k < |sys'.answers| ensures GetsDue(sys', sys'.answers[k].req, Some(sys'.answers[k].how)) {
      assert k < |sys.answers| ==> sys'.answers[k] == sys'.answers[..|sys.answers|][k];
    }
  }

  /** First calls never fail an assertion, and second calls always do. */
  lemma AssertsHoldIffFirst(sys: Sys, i: nat)
    requires Inv(sys) && Enabled(sys, Produce(i))
    ensures AssertsHold(sys.d, sys.threads[i].key) <==> sys.threads[i].Computed?
  {
    assert ThreadOk(sys, sys.threads[i]) && KeyOk(sys, sys.threads[i].key);
  }

  lemma FailKeeps(sys: Sys, i: nat)
    requires Inv(sys) && Enabled(sys, Produce(i)) && sys.threads[i].Retrying?
    ensures Inv(Apply(sys, Produce(i)))
  {
    AssertsHoldIffFirst(sys, i);
    hide Count;
    var sys', t := Apply(sys, Produce(i)), sys.threads[i];
    forall x ensures KeyOk(sys', x) {
      assert KeyOk(sys, x);
      CountRemove(sys.threads, i, WorksOnF(x));
      CountRemove(sys.threads, i, HasRunF(x));
      CountRemove(sys.threads, i, RetriesF(x));
      CountSnoc(sys.failed, t.key, KeyF(x));
    }
    forall x ensures ReqOk(sys', x) {
      assert ReqOk(sys, x);
      CountRemove(sys.threads, i, CarriesF(x));
      CountSnoc(sys.answers, Answer(t.req, Errored), AnswersF(x));
    }
    hide KeyOk, ReqOk;
    assert ThreadOk(sys, t);
    RestKeepsValues(sys, sys', i);
  }

  lemma {:induction false} CountReplies(reqs: seq<Req>, r: Response, x: Req)
    ensures Count(Replies(reqs, r), AnswersF(x)) == Count(reqs, ReqF(x))
  {
    if reqs != [] {
      var init, last := reqs[..|reqs| - 1], reqs[|reqs| - 1];
      CountReplies(init, r, x);
      CountSnoc(Replies(init, r), Answer(last, Replied(r)), AnswersF(x));
    }
  }

  lemma FirstCallShape(sys: Sys, i: nat)
    requires Inv(sys) && Enabled(sys, Produce(i)) && sys.threads[i].Computed?
    ensures var t := sys.threads[i]; var key, reqs := t.key, WaitersOf(sys.d, t.key);
            && key in sys.d.waiters && key !in sys.d.responses
            && reqs != [] && reqs[0] == t.req && Queue(sys, key, reqs)
            && Apply(sys, Produce(i)) ==
               var d := State(sys.d.responses[key := t.r], sys.d.waiters - {key});
               if t.r.Sends() then
                 sys.(d := d, threads := RemoveAt(sys.threads, i), answers := sys.answers + Replies(reqs, t.r))
               else
                 sys.(d := d, threads := sys.threads[i := Retrying(key, t.req)], dropped := sys.dropped + reqs[1..])
  {
    AssertsHoldIffFirst(sys, i);
    assert ThreadOk(sys, sys.threads[i]);
  }

  lemma FirstCallKeepsKey(sys: Sys, i: nat, x: Key)
    requires Inv(sys) && Enabled(sys, Produce(i)) && sys.threads[i].Computed?
    ensures KeyOk(Apply(sys, Produce(i)), x)
  {
    FirstCallShape(sys, i);
    assert KeyOk(sys, x);
    hide Count, Apply, ReqOk, ValuesOk;
    var t := sys.threads[i];
    if t.r.Sends() {
      CountRemove(sys.threads, i, WorksOnF(x));
      CountRemove(sys.threads, i, HasRunF(x));
      CountRemove(sys.threads, i, RetriesF(x));
    } else {
      CountUpdate(sys.threads, i, Retrying(t.key, t.req), WorksOnF(x));
      CountUpdate(sys.threads, i, Retrying(t.key, t.req), HasRunF(x));
      CountUpdate(sys.threads, i, Retrying(t.key, t.req), RetriesF(x));
    }
  }

  lemma OthersWait(sys: Sys, key: Key, x: Req)
    requires ValuesOk(sys) && (x !in sys.asked || sys.asked[x].key != key)
    ensures Count(WaitersOf(sys.d, key), ReqF(x)) == 0
  {
    var was := WaitersOf(sys.d, key);
    if was != [] {
      assert Queue(sys, key, was);
    }
    forall w | w in was ensures !ReqF(x)(w) {
      var k :| 0 <= k < |was| && was[k] == w;
    }
    CountNone(was, ReqF(x));
  }

  lemma SentKeepsReq(sys: Sys, i: nat, x: Req, d: State)
    requires ReqOk(sys, x) && i < |sys.threads| && sys.threads[i].Computed?
    requires d.waiters == sys.d.waiters - {sys.threads[i].key}
    requires x !in sys.asked || sys.asked[x].key != sys.threads[i].key ==>
      Count(WaitersOf(sys.d, sys.threads[i].key), ReqF(x)) == 0
    ensures var t := sys.threads[i];
            ReqOk(sys.(d := d, threads := RemoveAt(sys.threads, i),
                       answers := sys.answers + Replies(WaitersOf(sys.d, t.key), t.r)), x)
  {
    var t := sys.threads[i];
    var reqs := WaitersOf(sys.d, t.key);
    CountNone<Req>([], ReqF(x));
    hide Count, Replies;
    CountRemove(sys.threads, i, CarriesF(x));
    CountReplies(reqs, t.r, x);
    CountConcat(sys.answers, Replies(reqs, t.r), AnswersF(x));
  }

  lemma RaisedKeepsReq(sys: Sys, i: nat, x: Req, d: State)
    requires ReqOk(sys, x) && i < |sys.threads| && sys.threads[i].Computed?
    requires d.waiters == sys.d.waiters - {sys.threads[i].key}
    requires x !in sys.asked || sys.asked[x].key != sys.threads[i].key ==>
      Count(WaitersOf(sys.d, sys.threads[i].key), ReqF(x)) == 0
    requires var reqs := WaitersOf(sys.d, sys.threads[i].key); reqs != [] && reqs[0] == sys.threads[i].req
    ensures var t := sys.threads[i];
            ReqOk(sys.(d := d, threads := sys.threads[i := Retrying(t.key, t.req)],
                       dropped := sys.dropped + WaitersOf(sys.d, t.key)[1..]), x)
  {
    var t := sys.threads[i];
    var reqs := WaitersOf(sys.d, t.key);
    CountNone<Req>([], ReqF(x));
    hide Count;
    CountUpdate(sys.threads, i, Retrying(t.key, t.req), CarriesF(x));
    CountConcat(sys.dropped, reqs[1..], ReqF(x));
    CountHead(reqs, ReqF(x));
  }

  lemma FirstCallKeepsReq(sys: Sys, i: nat, x: Req)
    requires Inv(sys) && Enabled(sys, Produce(i)) && sys.threads[i].Computed?
    ensures ReqOk(Apply(sys, Produce(i)), x)
  {
    FirstCallShape(sys, i);
    var t := sys.threads[i];
    assert ReqOk(sys, x);
    if x !in sys.asked || sys.asked[x].key != t.key {
      OthersWait(sys, t.key, x);
    }
    hide Inv, ReqOk, Apply, Queue;
    var d := State(sys.d.responses[t.key := t.r], sys.d.waiters - {t.key});
    if t.r.Sends() {
      SentKeepsReq(sys, i, x, d);
    } else {
      RaisedKeepsReq(sys, i, x, d);
    }
  }

  lemma CountHead(reqs: seq<Req>, f: Req -> bool)
    requires reqs != []
    ensures Count(reqs, f) == (if f(reqs[0]) then 1 else 0) + Count(reqs[1..], f)
  {
    assert reqs == [reqs[0]] + reqs[1..];
    CountConcat([reqs[0]], reqs[1..], f);
    CountOne(reqs[0], f);
  }

  lemma CountOne(x: Req, f: Req -> bool)
    ensures Count([x], f) == if f(x) then 1 else 0
  {
    CountSnoc([], x, f);
    assert [] + [x] == [x];
  }

  lemma FirstCallKeepsValues(sys: Sys, i: nat)
    requires Inv(sys) && Enabled(sys, Produce(i)) && sys.threads[i].Computed?
    ensures ValuesOk(Apply(sys, Produce(i)))
  {
    FirstCallShape(sys, i);
    var sys', t := Apply(sys, Produce(i)), sys.threads[i];
    var key, reqs := t.key, WaitersOf(sys.d, t.key);
    forall k | 0 <= k < |sys'.threads| ensures ThreadOk(sys', sys'.threads[k]) {
      FirstCallKeepsThread(sys, i, k);
    }
    hide Apply, KeyOk, ReqOk;
    forall x | x in sys'.d.waiters ensures Queue(sys', x, sys'.d.waiters[x]) {
      assert Queue(sys, x, sys.d.waiters[x]);
    }
    forall k | 0 <= k < |sys'.answers| ensures GetsDue(sys', sys'.answers[k].req, Some(sys'.answers[k].how)) {
      if k < |sys.answers| {
        assert GetsDue(sys, sys.answers[k].req, Some(sys.answers[k].how));
      }
    }
    forall k | 0 <= k < |sys'.dropped| ensures GetsDue(sys', sys'.dropped[k], None) {
      if k < |sys.dropped| {
        assert GetsDue(sys, sys.dropped[k], None);
      } else {
        assert sys'.dropped[k] == reqs[k - |sys.dropped| + 1];
      }
    }
  }

  lemma FirstCallKeepsThread(sys: Sys, i: nat, k: nat)
    requires Inv(sys) && Enabled(sys, Produce(i)) && sys.threads[i].Computed? && k < |Apply(sys, Produce(i)).threads|
    ensures ThreadOk(Apply(sys, Produce(i)), Apply(sys, Produce(i)).threads[k])
  {
    FirstCallShape(sys, i);
    var sys', t := Apply(sys, Produce(i)), sys.threads[i];
    var j := if t.r.Sends() && k >= i then k + 1 else k;
    if j != i {
      assert ThreadOk(sys, sys.threads[j]);
      if WorksOnF(t.key)(sys.threads[j]) {
        assert KeyOk(sys, t.key);
        CountTwo(sys.threads, i, j, WorksOnF(t.key));
      }
    }
  }

  lemma ProduceKeeps(sys: Sys, i: nat)
    requires Inv(sys) && Enabled(sys, Produce(i))
    ensures Inv(Apply(sys, Produce(i)))
  {
    if sys.threads[i].Retrying? {
      FailKeeps(sys, i);
    } else {
      FirstCallKeepsValues(sys, i);
      forall x ensures KeyOk(Apply(sys, Produce(i)), x) {
        FirstCallKeepsKey(sys, i, x);
      }
      forall x ensures ReqOk(Apply(sys, Produce(i)), x) {
        FirstCallKeepsReq(sys, i, x);
      }
      hide KeyOk, ReqOk, ValuesOk;
    }
  }

  lemma CountTwo<T(!new)>(s: seq<T>, i: nat, j: nat, f: T -> bool)
    requires i < |s| && j < |s| && i != j && f(s[i]) && f(s[j])
    ensures Count(s, f) >= 2
  {
    CountRemove(s, i, f);
    var j' := if j < i then j else j - 1;
    assert RemoveAt(s, i)[j'] == s[j];
    CountRemove(RemoveAt(s, i), j', f);
  }

  lemma StepKeeps(sys: Sys, e: Event)
    requires Inv(sys) && Enabled(sys, e)
    ensures Inv(Apply(sys, e))
  {
    hide Inv;
    match e
    case Request(req, key) => RequestKeeps(sys, req, key);
    case Call(i, r) => CallKeeps(sys, i, r);
    case Produce(i) => ProduceKeeps(sys, i);
    case Return(i) => ReturnKeeps(sys, i);
  }

  // ---------------------------------------------------------------- runs

  predicate CanRun(sys: Sys, events: seq<Event>)
    decreases |events|
  {
    events == [] || (Enabled(sys, events[0]) && CanRun(Apply(sys, events[0]), events[1..]))
  }

  function Run(sys: Sys, events: seq<Event>): Sys
    requires CanRun(sys, events)
    decreases |events|
  {
    if events == [] then sys else Run(Apply(sys, events[0]), events[1..])
  }

  function Start(): Sys
  {
    Sys(State(map[], map[]), [], map[], [], [], [], [])
  }

  lemma {:induction false} RunKeeps(sys: Sys, events: seq<Event>)
    requires Inv(sys) && CanRun(sys, events)
    ensures Inv(Run(sys, events))
    decreases |events|
  {
    hide Inv, Apply, Enabled;
    if events != [] {
      StepKeeps(sys, events[0]);
      RunKeeps(Apply(sys, events[0]), events[1..]);
    }
  }

  ghost predicate Reachable(sys: Sys)
  {
    exists events :: CanRun(Start(), events) && Run(Start(), events) == sys
  }

  lemma ReachableInv(sys: Sys)
    requires Reachable(sys)
    ensures Inv(sys)
  {
    var events :| CanRun(Start(), events) && Run(Start(), events) == sys;
    RunKeeps(Start(), events);
  }

  /** The method has run at most once for each key, and no key is both waiting and answered. */
  lemma MethodRunsOncePerKey(sys: Sys, key: Key)
    requires Reachable(sys)
    ensures Count(sys.runs, KeyF(key)) <= 1
    ensures !(key in sys.d.waiters && key in sys.d.responses)
  {
    ReachableInv(sys);
    assert KeyOk(sys, key);
    CountImplies(sys.threads, HasRunF(key), WorksOnF(key));
  }

  predicate WillFail(sys: Sys, key: Key)
  {
    exists i :: 0 <= i < |sys.threads| && sys.threads[i].Retrying? && sys.threads[i].key == key
  }

  /**
   The assertions fail for a key exactly if its response cannot be sent: whichever thread publishes next, they
   hold unless it is doing so for the second time; a failure means such a response; and such a response
   means that they have failed, or that the thread that will fail them is on its way.
   */
  lemma AssertsFailIffUnsendable(sys: Sys, key: Key)
    requires Reachable(sys)
    ensures forall i: nat :: Enabled(sys, Produce(i)) ==>
      (AssertsHold(sys.d, sys.threads[i].key) <==> sys.threads[i].Computed?)
    ensures key in sys.failed ==> Unsendable(sys.d, key)
    ensures Unsendable(sys.d, key) ==> key in sys.failed || WillFail(sys, key)
    ensures sys.threads == [] ==> (key in sys.failed <==> Unsendable(sys.d, key))
  {
    ReachableInv(sys);
    forall i: nat | Enabled(sys, Produce(i))
      ensures AssertsHold(sys.d, sys.threads[i].key) <==> sys.threads[i].Computed?
    {
      AssertsHoldIffFirst(sys, i);
    }
    assert KeyOk(sys, key);
    CountNone(sys.failed, KeyF(key));
    CountNone(sys.threads, RetriesF(key));
    if Unsendable(sys.d, key) && key !in sys.failed {
      var t :| t in sys.threads && RetriesF(key)(t);
      var i :| 0 <= i < |sys.threads| && sys.threads[i] == t;
    }
  }

  /**
   No request is dealt with twice, and each exactly as is due: with the response of its key; by withholding it,
   if that is the sentinel and the request came after it; or by an error, if it cannot be sent.
   */
  lemma AnswersAreDue(sys: Sys, i: nat, j: nat)
    requires Reachable(sys) && i < |sys.answers| && j < |sys.answers|
    ensures i != j ==> sys.answers[i].req != sys.answers[j].req
    ensures var a := sys.answers[i];
            && a.req in sys.asked && sys.asked[a.req].key in sys.d.responses
            && var (r, role) := (sys.d.responses[sys.asked[a.req].key], sys.asked[a.req].role);
               && (a.how == Replied(r) <==> r.Sends() && (r != NoReply || !role.Late?))
               && (a.how == Withheld <==> r == NoReply && role.Late?)
               && (a.how == Errored <==> !r.Sends())
               && (!r.Sends() ==> !role.Joined?)
  {
    ReachableInv(sys);
    var x := sys.answers[i].req;
    assert ReqOk(sys, x);
    assert GetsDue(sys, x, Some(sys.answers[i].how));
    if i != j && sys.answers[j].req == x {
      CountTwo(sys.answers, i, j, AnswersF(x));
    }
  }

  /**
   Once no thread has anything left to do, a request has been answered, once, unless the response of its key
   cannot be sent and it had joined the waiters: then it is dropped. The method has run once for the key.
   */
  lemma AnsweredUnlessDropped(sys: Sys, req: Req)
    requires Reachable(sys) && req in sys.asked && sys.threads == []
    ensures var key, role := sys.asked[req].key, sys.asked[req].role;
            && key in sys.d.responses && Count(sys.runs, KeyF(key)) == 1
            && Count(sys.answers, AnswersF(req)) == (if !sys.d.responses[key].Sends() && role.Joined? then 0 else 1)
            && (req in sys.dropped <==> !sys.d.responses[key].Sends() && role.Joined?)
  {
    ReachableInv(sys);
    var key := sys.asked[req].key;
    assert ReqOk(sys, req) && KeyOk(sys, key);
    CountNone(sys.threads, CarriesF(req));
    CountNone(sys.threads, WorksOnF(key));
    CountNone(sys.threads, HasRunF(key));
    CountNone<Req>([], ReqF(req));
    CountNone(sys.dropped, ReqF(req));
    CountNone(sys.answers, AnswersF(req));
    if exists a :: a in sys.answers && AnswersF(req)(a) {
      var a :| a in sys.answers && AnswersF(req)(a);
      var k :| 0 <= k < |sys.answers| && sys.answers[k] == a;
      assert GetsDue(sys, req, Some(a.how));
    } else {
      assert req in sys.dropped;
      var k :| 0 <= k < |sys.dropped| && sys.dropped[k] == req;
      assert GetsDue(sys, req, None);
    }
  }

  /** Everybody who asked for a key gets its response, or is too late for a sentinel, iff it is sendable. */
  lemma EverybodyAnsweredIffSendable(sys: Sys, key: Key)
    requires Reachable(sys) && sys.threads == [] && key in sys.d.responses
    requires exists req :: req in sys.asked && sys.asked[req].key == key
    ensures var r := sys.d.responses[key];
            r.Sends() <==> forall req :: req in sys.asked && sys.asked[req].key == key ==>
              Dealt(sys, req, Replied(r)) || (r == NoReply && sys.asked[req].role.Late? && Dealt(sys, req, Withheld))
  {
    var r := sys.d.responses[key];
    forall req | req in sys.asked && sys.asked[req].key == key
      ensures Dealt(sys, req, Replied(r)) || (r == NoReply && sys.asked[req].role.Late? && Dealt(sys, req, Withheld))
        <==> r.Sends()
    {
      DealtAsDue(sys, req);
    }
  }

  predicate Dealt(sys: Sys, req: Req, how: How)
  {
    exists k :: 0 <= k < |sys.answers| && sys.answers[k] == Answer(req, how)
  }

  lemma DealtAsDue(sys: Sys, req: Req)
    requires Reachable(sys) && req in sys.asked && sys.threads == []
    ensures sys.asked[req].key in sys.d.responses
    ensures var r := sys.d.responses[sys.asked[req].key];
            && (r.Sends() && !(r == NoReply && sys.asked[req].role.Late?) ==> Dealt(sys, req, Replied(r)))
            && (r == NoReply && sys.asked[req].role.Late? ==> Dealt(sys, req, Withheld))
            && (!r.Sends() ==> !Dealt(sys, req, Replied(r)))
  {
    AnsweredUnlessDropped(sys, req);
    ReachableInv(sys);
    CountNone(sys.answers, AnswersF(req));
    forall k | 0 <= k < |sys.answers| && sys.answers[k].req == req
      ensures Some(sys.answers[k].how) == Due(sys.d.responses[sys.asked[req].key], sys.asked[req].role)
    {
      assert GetsDue(sys, sys.answers[k].req, Some(sys.answers[k].how));
    }
    if sys.d.responses[sys.asked[req].key].Sends() {
      var a :| a in sys.answers && AnswersF(req)(a);
      var k :| 0 <= k < |sys.answers| && sys.answers[k] == a;
      assert sys.answers[k] == Answer(req, a.how);
    }
  }

  /** A waiting key always has a thread that works on it. */
  lemma WaitersAreServed(sys: Sys, key: Key)
    requires Reachable(sys) && key in sys.d.waiters
    ensures exists i :: 0 <= i < |sys.threads| && WorksOnF(key)(sys.threads[i])
  {
    ReachableInv(sys);
    assert KeyOk(sys, key);
    CountNone(sys.threads, WorksOnF(key));
    var t :| t in sys.threads && WorksOnF(key)(t);
    var k :| 0 <= k < |sys.threads| && sys.threads[k] == t;
  }

  /** A method that gives something that cannot be pickled: an assertion fails, and the waiter is never answered. */
  lemma UnpicklableStrandsWaiter()
    ensures var events := [Request(0, "k"), Request(1, "k"), Call(0, Value(9, false)), Produce(0), Produce(0)];
            && CanRun(Start(), events)
            && var sys := Run(Start(), events);
               && sys.threads == [] && sys.failed == ["k"]
               && sys.answers == [Answer(0, Errored)] && sys.dropped == [1]
  {
    var r := Value(9, false);
    var s1 := Apply(Start(), Request(0, "k"));
    assert s1.threads == [Producing("k", 0)] && s1.d.waiters == map["k" := [0]];
    var s2 := Apply(s1, Request(1, "k"));
    assert [0] + [1] == [0, 1];
    assert s2.threads == [Producing("k", 0)] && s2.d.waiters == map["k" := [0, 1]];
    var s3 := Apply(s2, Call(0, r));
    assert s3.threads == [Computed("k", 0, r)];
    var s4 := Apply(s3, Produce(0));
    assert s4.threads == [Retrying("k", 0)] && s4.dropped == [1];
    var s5 := Apply(s4, Produce(0));
    hide Apply, CanRun, Run, Start;
    Stopped(s5);
    After(s4, Produce(0), [], s5);
    After(s3, Produce(0), [Produce(0)], s5);
    After(s2, Call(0, r), [Produce(0), Produce(0)], s5);
    After(s1, Request(1, "k"), [Call(0, r), Produce(0), Produce(0)], s5);
    After(Start(), Request(0, "k"), [Request(1, "k"), Call(0, r), Produce(0), Produce(0)], s5);
  }

  lemma Stopped(s: Sys)
    ensures CanRun(s, []) && Run(s, []) == s
  {
  }

  lemma After(s: Sys, e: Event, rest: seq<Event>, s': Sys)
    requires Enabled(s, e) && CanRun(Apply(s, e), rest) && Run(Apply(s, e), rest) == s'
    ensures CanRun(s, [e] + rest) && Run(s, [e] + rest) == s'
  {
    assert ([e] + rest)[1..] == rest;
  }
}
