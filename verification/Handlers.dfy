/**
 The message handlers a `Router` keeps by handle, and the index of the handles that wait for each
 respondent. It is assumed that one call is made at a time: messages, disconnections and the exit are
 handled on the broker thread, but a `Receiver` is opened and closed on the thread that uses it.
 */
module Handlers {
  import opened Seqs
  import opened Routes

  type Handle = nat

  /** `fn` names the registration; each call of `add_handler` has its own. */
  datatype Entry = Entry(persist: bool, fn: nat, respondent: Option<Id>)

  datatype Table = Table(handlers: map<Handle, Entry>, waiting: map<Id, set<Handle>>, next: Handle)

  /** A call of a handler, with a dead message or with one that arrived. */
  datatype Call = Call(fn: nat, dead: bool)

  datatype Msg = Msg(handle: Handle, src: Id, dead: bool)

  datatype Outcome = Handled | InvalidHandle | UnexpectedContext | Refused | KeyError

  // ---------------------------------------------------------------- single calls

  function HandlesOf(t: Table, r: Id): set<Handle>
  {
    if r in t.waiting then t.waiting[r] else {}
  }

  /** `add_handler`; a handle that is missing or zero is allocated. The error is that of a duplicate. */
  function Register(t: Table, wanted: Option<Handle>, e: Entry, overwrite: bool): (Table, Option<Handle>)
  {
    var fixed := wanted.Some? && wanted.value != 0;
    var h := if fixed then wanted.value else t.next;
    var t' := if fixed then t else t.(next := t.next + 1);
    if h in t.handlers && !overwrite then (t', None)
    else
      var waiting := if e.respondent.None? then t.waiting
                     else t.waiting[e.respondent.value := HandlesOf(t, e.respondent.value) + {h}];
      (t'.(handlers := t.handlers[h := e], waiting := waiting), Some(h))
  }

  /** `del_handler`, which fails with KeyError where one of the two lookups does. */
  function Unregister(t: Table, h: Handle): (Table, bool)
  {
    if h !in t.handlers then (t, false)
    else
      var t', r := t.(handlers := t.handlers - {h}), t.handlers[h].respondent;
      if r.None? then (t', true)
      else if r.value !in t.waiting then (t', false)
      else (t'.(waiting := t.waiting[r.value := t.waiting[r.value] - {h}]), true)
  }

  /** `_invoke`; `allowed` is what the policy says. */
  function Invoke(t: Table, m: Msg, allowed: bool): (Table, seq<Call>, Outcome)
  {
    if m.handle !in t.handlers then (t, [], InvalidHandle)
    else
      var e := t.handlers[m.handle];
      if e.respondent.Some? && !(m.dead || m.src == e.respondent.value) then (t, [], UnexpectedContext)
      else if !allowed then (t, [], Refused)
      else if e.persist then (t, [Call(e.fn, m.dead)], Handled)
      else
        var (t', ok) := Unregister(t, m.handle);
        if ok then (t', [Call(e.fn, m.dead)], Handled) else (t', [], KeyError)
  }

  /** How going through the handlers ended: with the last of them, at one that is missing, or at one that raised. */
  datatype Ending = Finished | Missing | Broken(fn: nat)

  /**
   Each of the handlers gets a dead message and is removed. Those in `raising` raise an exception on it, which
   ends the loop: before the removal if the call comes first, and otherwise after it.
   */
  function Bury(t: Table, order: seq<Handle>, raising: set<nat>, callFirst: bool): (Table, seq<Call>, Ending)
    decreases |order|
  {
    if order == [] then (t, [], Finished)
    else if order[0] !in t.handlers then (t, [], Missing)
    else
      var fn, t1 := t.handlers[order[0]].fn, t.(handlers := t.handlers - {order[0]});
      if fn in raising then (if callFirst then t else t1, [Call(fn, true)], Broken(fn))
      else
        var (t', calls, ending) := Bury(t1, order[1..], raising, callFirst);
        (t', [Call(fn, true)] + calls, ending)
  }

  /** `order` lists the elements of `s`, each once. */
  ghost predicate Enumerates(order: seq<Handle>, s: set<Handle>)
  {
    Distinct(order) && forall h :: h in order <==> h in s
  }

  function Disconnect(t: Table, r: Id, order: seq<Handle>, raising: set<nat>): (Table, seq<Call>, Ending)
  {
    Bury(t.(waiting := t.waiting - {r}), order, raising, true)
  }

  function Exit(t: Table, order: seq<Handle>, raising: set<nat>): (Table, seq<Call>, Ending)
  {
    Bury(t, order, raising, false)
  }

  class Router {
    var handlers: map<Handle, Entry>
    var waiting: map<Id, set<Handle>>
    var next: Handle
    var calls: seq<Call>

    function Value(): Table
      reads this
    {
      Table(handlers, waiting, next)
    }

    constructor ()
      ensures Value() == Table(map[], map[], 1000) && calls == []
    {
      handlers, waiting, next, calls := map[], map[], 1000, [];
    }

    method AddHandler(wanted: Option<Handle>, e: Entry, overwrite: bool) returns (h: Option<Handle>)
      modifies this
      ensures (Value(), h) == old(Register(Value(), wanted, e, overwrite)) && calls == old(calls)
    {
      var handle;
      if wanted.Some? && wanted.value != 0 {
        handle := wanted.value;
      } else {
        handle := next;
        next := next + 1;
      }
      if handle in handlers && !overwrite {
        return None;
      }
      handlers := handlers[handle := e];
      if e.respondent.Some? {
        var r := e.respondent.value;
        if r !in waiting {
          waiting := waiting[r := {}];
        }
        waiting := waiting[r := waiting[r] + {handle}];
        assert waiting == old(waiting)[r := HandlesOf(old(Value()), r) + {handle}];
      }
      return Some(handle);
    }

    method DelHandler(h: Handle) returns (ok: bool)
      modifies this
      ensures (Value(), ok) == old(Unregister(Value(), h)) && calls == old(calls)
    {
      if h !in handlers {
        return false;
      }
      var respondent := handlers[h].respondent;
      handlers := handlers - {h};
      if respondent.Some? {
        if respondent.value !in waiting {
          return false;
        }
        waiting := waiting[respondent.value := waiting[respondent.value] - {h}];
      }
      return true;
    }

    method InvokeHandler(m: Msg, allowed: bool) returns (outcome: Outcome)
      modifies this
      ensures var (t, made, result) := old(Invoke(Value(), m, allowed));
              Value() == t && calls == old(calls) + made && outcome == result
    {
      if m.handle !in handlers {
        return InvalidHandle;
      }
      var e := handlers[m.handle];
      if e.respondent.Some? && !(m.dead || m.src == e.respondent.value) {
        return UnexpectedContext;
      }
      if !allowed {
        return Refused;
      }
      if !e.persist {
        var ok := DelHandler(m.handle);
        if !ok {
          return KeyError;
        }
      }
      calls := calls + [Call(e.fn, m.dead)];
      return Handled;
    }

    /** The set is gone through in an order of its own; nothing catches what a handler raises. */
    method OnRespondentDisconnect(r: Id, raising: set<nat>) returns (ending: Ending, ghost order: seq<Handle>)
      modifies this
      ensures Enumerates(order, old(HandlesOf(Value(), r)))
      ensures var (t, made, result) := old(Disconnect(Value(), r, order, raising));
              Value() == t && calls == old(calls) + made && ending == result
    {
      var left := HandlesOf(Value(), r);
      ghost var hs := left;
      waiting := waiting - {r};
      ghost var start := Value();
      order := [];
      ghost var made: seq<Call> := [];
      hide Bury, Enumerates, HandlesOf, Distinct, SoFar;
      BuryNone(start, raising, true);
      EnumeratesNone(hs);
      while left != {}
        invariant left <= hs && Enumerates(order, hs - left)
        invariant calls == old(calls) + made && SoFar(start, order, raising, true, Value(), made)
        decreases left
      {
        var h :| h in left;
        ghost var rest := [h] + AnyOrder(left - {h});
        BuryNext(start, order, raising, true, Value(), made, h, AnyOrder(left - {h}));
        EnumeratesNext(order, hs, left, h);
        if h !in handlers {
          return Missing, order + rest;
        }
        var fn := handlers[h].fn;
        calls, made := calls + [Call(fn, true)], made + [Call(fn, true)];
        if fn in raising {
          return Broken(fn), order + rest;
        }
        handlers := handlers - {h};
        left := left - {h};
        order := order + [h];
      }
      assert hs - left == hs;
      BuryDone(start, order, raising, true, Value(), made);
      return Finished, order;
    }

    /** `_on_broker_exit`: entries are popped in an order of the dictionary's own, each before it is called. */
    method OnBrokerExit(raising: set<nat>) returns (ending: Ending, ghost order: seq<Handle>)
      modifies this
      ensures Enumerates(order, old(handlers.Keys))
      ensures var (t, made, result) := old(Exit(Value(), order, raising));
              Value() == t && calls == old(calls) + made && ending == result
      ensures ending == Finished ==> handlers == map[]
    {
      ghost var start := Value();
      order := [];
      ghost var made: seq<Call> := [];
      hide Bury, Enumerates, Distinct, SoFar;
      BuryNone(start, raising, false);
      ghost var hs, left := handlers.Keys, handlers.Keys;
      EnumeratesNone(hs);
      while handlers != map[]
        invariant left == handlers.Keys <= hs && Enumerates(order, hs - left)
        invariant calls == old(calls) + made && SoFar(start, order, raising, false, Value(), made)
        decreases left
      {
        var h :| h in handlers;
        ghost var rest := [h] + AnyOrder(left - {h});
        BuryNext(start, order, raising, false, Value(), made, h, AnyOrder(left - {h}));
        EnumeratesNext(order, hs, left, h);
        var fn := handlers[h].fn;
        handlers, left := handlers - {h}, left - {h};
        calls, made := calls + [Call(fn, true)], made + [Call(fn, true)];
        if fn in raising {
          return Broken(fn), order + rest;
        }
        order := order + [h];
      }
      assert hs - left == hs;
      BuryDone(start, order, raising, false, Value(), made);
      return Finished, order;
    }
  }

  lemma {:induction false} BuryMore(t: Table, a: seq<Handle>, b: seq<Handle>, raising: set<nat>, callFirst: bool)
    ensures var (t1, made, ending) := Bury(t, a, raising, callFirst);
            Bury(t, a + b, raising, callFirst) ==
              if ending == Finished then
                var (t2, more, last) := Bury(t1, b, raising, callFirst); (t2, made + more, last)
              else (t1, made, ending)
    decreases |a|
  {
    if a == [] {
      assert a + b == b && [] + Bury(t, b, raising, callFirst).1 == Bury(t, b, raising, callFirst).1;
    } else {
      assert (a + b)[1..] == a[1..] + b;
      if a[0] in t.handlers && t.handlers[a[0]].fn !in raising {
        var t' := t.(handlers := t.handlers - {a[0]});
        BuryMore(t', a[1..], b, raising, callFirst);
        var c := [Call(t.handlers[a[0]].fn, true)];
        var (t1, made, ending) := Bury(t', a[1..], raising, callFirst);
        var (t2, more, last) := Bury(t1, b, raising, callFirst);
        assert c + (made + more) == c + made + more;
      }
    }
  }

  /** The handlers in `order` have had their messages, none of them raising, with this outcome. */
  ghost predicate SoFar(
    t: Table, order: seq<Handle>, raising: set<nat>, callFirst: bool, now: Table, made: seq<Call>)
  {
    Bury(t, order, raising, callFirst) == (now, made, Finished)
  }

  lemma BuryNone(t: Table, raising: set<nat>, callFirst: bool)
    ensures Bury(t, [], raising, callFirst) == (t, [], Finished)
    ensures SoFar(t, [], raising, callFirst, t, [])
  {
  }

  /** One round of the loops: on to the next handler, or the end of it all. */
  lemma BuryNext(
    t: Table, order: seq<Handle>, raising: set<nat>, callFirst: bool, now: Table, made: seq<Call>,
    h: Handle, rest: seq<Handle>)
    requires SoFar(t, order, raising, callFirst, now, made)
    ensures h !in now.handlers ==> Bury(t, order + ([h] + rest), raising, callFirst) == (now, made, Missing)
    ensures h in now.handlers ==>
      var c, now' := Call(now.handlers[h].fn, true), now.(handlers := now.handlers - {h});
      if c.fn in raising then
        Bury(t, order + ([h] + rest), raising, callFirst)
        == (if callFirst then now else now', made + [c], Broken(c.fn))
      else SoFar(t, order + [h], raising, callFirst, now', made + [c])
  {
    BuryMore(t, order, [h], raising, callFirst);
    BuryMore(t, order, [h] + rest, raising, callFirst);
    assert made + [] == made;
    assert [h][1..] == [];
    assert forall c: Call :: [c] + [] == [c];
  }

  /** At the end. */
  lemma BuryDone(t: Table, order: seq<Handle>, raising: set<nat>, callFirst: bool, now: Table, made: seq<Call>)
    requires SoFar(t, order, raising, callFirst, now, made)
    ensures Bury(t, order, raising, callFirst) == (now, made, Finished)
  {
  }

  lemma EnumeratesNone(s: set<Handle>)
    ensures Enumerates([], s - s)
  {
  }

  lemma EnumeratesNext(order: seq<Handle>, s: set<Handle>, left: set<Handle>, h: Handle)
    requires Enumerates(order, s - left) && h in left && left <= s
    ensures Enumerates(order + [h], s - (left - {h}))
    ensures Enumerates(order + ([h] + AnyOrder(left - {h})), s)
  {
    var rest := [h] + AnyOrder(left - {h});
    DistinctConcat([h], AnyOrder(left - {h}));
    DistinctConcat(order, rest);
    DistinctConcat(order, [h]);
  }

  ghost function AnyOrder(s: set<Handle>): (order: seq<Handle>)
    ensures Enumerates(order, s)
    decreases |s|
  {
    if s == {} then [] else var h :| h in s; [h] + AnyOrder(s - {h})
  }

  // ---------------------------------------------------------------- the index of respondents

  /** The handles listed for each respondent are those of the handlers that wait for it. */
  ghost predicate Inverse(t: Table)
  {
    forall r: Id, h: Handle :: h in HandlesOf(t, r) <==> h in t.handlers && t.handlers[h].respondent == Some(r)
  }

  /** Overwriting keeps the index exact iff what is replaced waited for nobody, or for the same respondent. */
  lemma RegisterKeepsInverseIff(t: Table, wanted: Option<Handle>, e: Entry, overwrite: bool)
    requires Inverse(t)
    ensures var (t', h) := Register(t, wanted, e, overwrite);
            Inverse(t') <==> (h.None? || h.value !in t.handlers
              || t.handlers[h.value].respondent.None? || t.handlers[h.value].respondent == e.respondent)
  {
    var (t', h) := Register(t, wanted, e, overwrite);
    forall r: Id
      ensures HandlesOf(t', r) == HandlesOf(t, r) + (if h.Some? && e.respondent == Some(r) then {h.value} else {})
    {
    }
    if h.Some? && h.value in t.handlers && t.handlers[h.value].respondent.Some?
       && t.handlers[h.value].respondent != e.respondent {
      var r := t.handlers[h.value].respondent.value;
      assert h.value in HandlesOf(t', r);
      assert t'.handlers[h.value].respondent != Some(r);
    } else {
      forall r: Id, x: Handle
        ensures x in HandlesOf(t', r) <==> x in t'.handlers && t'.handlers[x].respondent == Some(r)
      {
        assert x in HandlesOf(t, r) <==> x in t.handlers && t.handlers[x].respondent == Some(r);
      }
    }
  }

  /**
   Nothing is replaced unless that is asked for: without `overwrite` a handle that is taken is refused, and all
   handlers stay. A handle is the one asked for, or else lies above all that were allocated before.
   */
  lemma RegisterAnswers(t: Table, wanted: Option<Handle>, e: Entry, overwrite: bool)
    ensures var (t', h) := Register(t, wanted, e, overwrite);
            var asked := wanted.Some? && wanted.value != 0;
            && (h.None? <==> !overwrite && (if asked then wanted.value else t.next) in t.handlers)
            && (h.None? ==> t'.handlers == t.handlers && t'.waiting == t.waiting)
            && (h.Some? ==> h.value in t'.handlers && t'.handlers[h.value] == e)
            && (forall x :: x in t.handlers && (h != Some(x) || !overwrite) ==>
                  x in t'.handlers && t'.handlers[x] == t.handlers[x])
            && (forall x :: x in t'.handlers && h != Some(x) ==> x in t.handlers)
            && (asked && h.Some? ==> h == wanted)
            && (!asked ==> t.next < t'.next && (h.Some? ==> t.next <= h.value < t'.next))
            && t.next <= t'.next
  {
  }

  lemma UnregisterKeepsInverse(t: Table, h: Handle)
    requires Inverse(t)
    ensures Inverse(Unregister(t, h).0) && (Unregister(t, h).1 <==> h in t.handlers)
  {
    if h in t.handlers && t.handlers[h].respondent.Some? {
      assert h in HandlesOf(t, t.handlers[h].respondent.value);
    }
    forall r: Id ensures HandlesOf(Unregister(t, h).0, r) == HandlesOf(t, r) - {h} {
      assert h in HandlesOf(t, r) <==> h in t.handlers && t.handlers[h].respondent == Some(r);
    }
  }

  lemma InvokeKeepsInverse(t: Table, m: Msg, allowed: bool)
    requires Inverse(t)
    ensures Inverse(Invoke(t, m, allowed).0) && Invoke(t, m, allowed).2 != KeyError
  {
    UnregisterKeepsInverse(t, m.handle);
  }

  /** How many handlers are buried before one is missing or raises. */
  function Reach(handlers: map<Handle, Entry>, order: seq<Handle>, raising: set<nat>): (n: nat)
    ensures n <= |order|
    ensures forall j :: 0 <= j < n ==> order[j] in handlers && handlers[order[j]].fn !in raising
    ensures n < |order| && order[n] in handlers ==> handlers[order[n]].fn in raising
  {
    if order == [] || order[0] !in handlers || handlers[order[0]].fn in raising then 0
    else 1 + Reach(handlers, order[1..], raising)
  }

  lemma {:induction false} ReachAll(handlers: map<Handle, Entry>, order: seq<Handle>, raising: set<nat>)
    requires forall h :: h in order ==> h in handlers && handlers[h].fn !in raising
    ensures Reach(handlers, order, raising) == |order|
  {
    if order != [] {
      ReachAll(handlers, order[1..], raising);
    }
  }

  function SetOf(s: seq<Handle>): set<Handle>
  {
    set h | h in s
  }

  /** The dead messages to the handlers in `order`. */
  function Deaths(handlers: map<Handle, Entry>, order: seq<Handle>): (r: seq<Call>)
    requires forall h :: h in order ==> h in handlers
    ensures |r| == |order| && forall k :: 0 <= k < |r| ==> r[k] == Call(handlers[order[k]].fn, true)
  {
    if order == [] then [] else [Call(handlers[order[0]].fn, true)] + Deaths(handlers, order[1..])
  }

  lemma {:induction false} SameDeaths(handlers: map<Handle, Entry>, h: Handle, order: seq<Handle>)
    requires h !in order && forall x :: x in order ==> x in handlers
    ensures Deaths(handlers - {h}, order) == Deaths(handlers, order)
  {
    if order != [] {
      SameDeaths(handlers, h, order[1..]);
    }
  }

  /** Burying handlers that are all there, none of which raises, calls each of them once and removes just those. */
  lemma {:induction false} BuriesAll(t: Table, order: seq<Handle>, raising: set<nat>, callFirst: bool)
    requires Distinct(order)
    requires forall h :: h in order ==> h in t.handlers && t.handlers[h].fn !in raising
    ensures var (t', made, ending) := Bury(t, order, raising, callFirst);
            && ending == Finished && made == Deaths(t.handlers, order)
            && t' == t.(handlers := t.handlers - SetOf(order))
    decreases |order|
  {
    hide Distinct, SetOf;
    if order == [] {
      NoneGone(t.handlers);
    } else {
      var h, rest := order[0], order[1..];
      OthersLeft(t.handlers, order);
      BuriesAll(t.(handlers := t.handlers - {h}), rest, raising, callFirst);
      SameDeaths(t.handlers, h, rest);
    }
  }

  lemma NoneGone(handlers: map<Handle, Entry>)
    ensures handlers - SetOf([]) == handlers
  {
  }

  lemma OthersLeft(handlers: map<Handle, Entry>, order: seq<Handle>)
    requires order != [] && Distinct(order)
    ensures Distinct(order[1..]) && order[0] !in order[1..]
    ensures handlers - {order[0]} - SetOf(order[1..]) == handlers - SetOf(order)
    ensures forall h :: h in order[1..] ==> h in order
  {
    assert order == [order[0]] + order[1..];
  }

  /** The handlers that get a message: those before the first that is missing or raises, and the one that raises. */
  function Told(handlers: map<Handle, Entry>, order: seq<Handle>, raising: set<nat>): (told: seq<Handle>)
    ensures told <= order && forall h :: h in told ==> h in handlers
  {
    var n := Reach(handlers, order, raising);
    order[..if n < |order| && order[n] in handlers then n + 1 else n]
  }

  /** Otherwise it stops at the first that is missing, or that raises, which is removed if that comes first. */
  lemma BuriesUpTo(t: Table, order: seq<Handle>, raising: set<nat>, callFirst: bool)
    requires Distinct(order)
    ensures var (t', made, ending) := Bury(t, order, raising, callFirst);
            var n := Reach(t.handlers, order, raising);
            var told := Told(t.handlers, order, raising);
            && ending == (if n == |order| then Finished
                          else if order[n] in t.handlers then Broken(t.handlers[order[n]].fn) else Missing)
            && made == Deaths(t.handlers, told)
            && t' == t.(handlers := t.handlers - SetOf(if callFirst then order[..n] else told))
  {
    hide Bury, Distinct, Deaths;
    var n := Reach(t.handlers, order, raising);
    if n == |order| {
      assert order[..n] == order;
      BuriesAll(t, order, raising, callFirst);
    } else {
      var head, tail := order[..n], order[n..];
      assert order == head + tail;
      HeadIsDistinct(order, n);
      BuriesAll(t, head, raising, callFirst);
      BuryMore(t, head, tail, raising, callFirst);
      var t1 := Bury(t, head, raising, callFirst).0;
      if order[n] in t.handlers {
        BuryBroken(t1, order[n], tail, raising, callFirst);
        OneMoreDeath(t.handlers, order, n);
      } else {
        BuryMissing(t1, tail, raising, callFirst);
        assert Deaths(t.handlers, head) + [] == Deaths(t.handlers, head);
      }
    }
  }

  lemma BuryMissing(t: Table, tail: seq<Handle>, raising: set<nat>, callFirst: bool)
    requires tail != [] && tail[0] !in t.handlers
    ensures Bury(t, tail, raising, callFirst) == (t, [], Missing)
  {
  }

  lemma HeadIsDistinct(order: seq<Handle>, n: nat)
    requires Distinct(order) && n <= |order|
    ensures Distinct(order[..n]) && (n < |order| ==> order[n] !in order[..n])
  {
  }

  lemma OneMoreDeath(handlers: map<Handle, Entry>, order: seq<Handle>, n: nat)
    requires n < |order| && forall h :: h in order[..n + 1] ==> h in handlers
    ensures forall h :: h in order[..n] ==> h in handlers
    ensures Deaths(handlers, order[..n + 1]) == Deaths(handlers, order[..n]) + [Call(handlers[order[n]].fn, true)]
    ensures handlers - SetOf(order[..n + 1]) == handlers - SetOf(order[..n]) - {order[n]}
  {
    assert order[..n + 1] == order[..n] + [order[n]];
  }

  lemma BuryBroken(t: Table, h: Handle, tail: seq<Handle>, raising: set<nat>, callFirst: bool)
    requires tail != [] && tail[0] == h && h in t.handlers && t.handlers[h].fn in raising
    ensures var fn := t.handlers[h].fn;
            Bury(t, tail, raising, callFirst)
            == (if callFirst then t else t.(handlers := t.handlers - {h}), [Call(fn, true)], Broken(fn))
  {
  }

  /** Losing a respondent keeps the index exact, and ends well, iff none of the handlers waiting for it raises. */
  lemma DisconnectKeepsInverseIff(t: Table, r: Id, order: seq<Handle>, raising: set<nat>)
    requires Inverse(t) && Enumerates(order, HandlesOf(t, r))
    ensures var (t', _, ending) := Disconnect(t, r, order, raising);
            var quiet := forall h :: h in t.handlers && t.handlers[h].respondent == Some(r) ==>
              t.handlers[h].fn !in raising;
            && (Inverse(t') <==> quiet) && (ending == Finished <==> quiet) && ending != Missing
  {
    hide Bury, Deaths, Told;
    var t0 := t.(waiting := t.waiting - {r});
    BuriesUpTo(t0, order, raising, true);
    var (t', _, ending) := Disconnect(t, r, order, raising);
    var n := Reach(t0.handlers, order, raising);
    assert forall h :: h in order <==> h in t.handlers && t.handlers[h].respondent == Some(r);
    if n < |order| {
      assert order[n] in order && order[n] !in order[..n];
      assert order[n] in t'.handlers && order[n] !in HandlesOf(t', r);
    } else {
      assert order[..n] == order;
      forall x: Id, h: Handle
        ensures h in HandlesOf(t', x) <==> h in t'.handlers && t'.handlers[h].respondent == Some(x)
      {
        assert HandlesOf(t', x) == if x == r then {} else HandlesOf(t, x);
        assert h in HandlesOf(t, x) <==> h in t.handlers && t.handlers[h].respondent == Some(x);
      }
    }
  }

  /** What is left of the index after a handler raised: it lists no handle wrongly, but may leave some out. */
  ghost predicate Sound(t: Table)
  {
    forall r: Id, h: Handle :: h in HandlesOf(t, r) ==> h in t.handlers && t.handlers[h].respondent == Some(r)
  }

  lemma RegisterKeepsSound(t: Table, wanted: Option<Handle>, e: Entry, overwrite: bool)
    requires Sound(t) && Takes(t, wanted, e, overwrite)
    ensures Sound(Register(t, wanted, e, overwrite).0)
  {
    var (t', h) := Register(t, wanted, e, overwrite);
    forall r: Id
      ensures HandlesOf(t', r) == HandlesOf(t, r) + (if h.Some? && e.respondent == Some(r) then {h.value} else {})
    {
    }
    forall r: Id, x: Handle | x in HandlesOf(t', r) ensures x in t'.handlers && t'.handlers[x].respondent == Some(r) {
      assert x in HandlesOf(t, r) ==> x in t.handlers && t.handlers[x].respondent == Some(r);
    }
  }

  lemma UnregisterKeepsSound(t: Table, h: Handle)
    requires Sound(t)
    ensures Sound(Unregister(t, h).0)
  {
    var t' := Unregister(t, h).0;
    forall r: Id, x: Handle | x in HandlesOf(t', r) ensures x in t'.handlers && t'.handlers[x].respondent == Some(r) {
      assert x in HandlesOf(t, r);
    }
  }

  lemma DisconnectKeepsSound(t: Table, r: Id, order: seq<Handle>, raising: set<nat>)
    requires Sound(t) && Enumerates(order, HandlesOf(t, r))
    ensures Sound(Disconnect(t, r, order, raising).0)
  {
    var t0 := t.(waiting := t.waiting - {r});
    BuriesUpTo(t0, order, raising, true);
    var t' := Disconnect(t, r, order, raising).0;
    forall x: Id, h: Handle | h in HandlesOf(t', x) ensures h in t'.handlers && t'.handlers[h].respondent == Some(x) {
      assert x != r && h in HandlesOf(t, x);
      assert h in order ==> h in HandlesOf(t, r);
    }
  }

  /** A handle is not taken away from a handler that waits for somebody else. */
  predicate Takes(t: Table, wanted: Option<Handle>, e: Entry, overwrite: bool)
  {
    var h := Register(t, wanted, e, overwrite).1;
    h.None? || h.value !in t.handlers
    || t.handlers[h.value].respondent.None? || t.handlers[h.value].respondent == e.respondent
  }

  /**
   A handler that raised when its respondent was lost is not in the index any more: unless it is overwritten,
   a one-shot handler does not get a message that arrives later, but fails with KeyError and is gone.
   */
  lemma BrokenLosesReply(t: Table, r: Id, order: seq<Handle>, raising: set<nat>, h: Handle, src: Id)
    requires Inverse(t) && Enumerates(order, HandlesOf(t, r))
    requires h in order && t.handlers[h].fn in raising && !t.handlers[h].persist
    ensures var t' := Disconnect(t, r, order, raising).0;
            && h in t'.handlers
            && Invoke(t', Msg(h, r, false), true) == (t'.(handlers := t'.handlers - {h}), [], KeyError)
  {
    var t0 := t.(waiting := t.waiting - {r});
    BuriesUpTo(t0, order, raising, true);
    assert h in HandlesOf(t, r) <==> h in t.handlers && t.handlers[h].respondent == Some(r);
  }

  /**
   What goes wrong otherwise: a handler waiting for `b` put in the place of one waiting for `a` is told
   that its respondent is dead when `a` goes, and when `b` goes the loop over its handlers breaks off.
   */
  lemma ForeignOverwriteMisleads(t: Table, h: Handle, e: Entry, a: Id, b: Id, order: seq<Handle>, order': seq<Handle>)
    requires Inverse(t) && h != 0 && h in t.handlers && t.handlers[h].respondent == Some(a)
    requires e.respondent == Some(b) && a != b
    requires var t1 := Register(t, Some(h), e, true).0;
             Enumerates(order, HandlesOf(t1, a)) && Enumerates(order', HandlesOf(t1, b))
    ensures var t1 := Register(t, Some(h), e, true).0;
            var (t2, made, ending) := Disconnect(t1, a, order, {});
            ending == Finished && Call(e.fn, true) in made && Disconnect(t2, b, order', {}).2 == Missing
  {
    var t1 := Register(t, Some(h), e, true).0;
    var t1' := t1.(waiting := t1.waiting - {a});
    assert forall r: Id :: HandlesOf(t1, r) == HandlesOf(t, r) + (if r == b then {h} else {});
    assert h in HandlesOf(t, a);
    BuriesUpTo(t1', order, {}, true);
    var (t2, made, ending) := Disconnect(t1, a, order, {});
    var k :| 0 <= k < |order| && order[k] == h;
    assert made[k] == Call(e.fn, true);
    assert order[..|order|] == order;
    MissingStops(t2.(waiting := t2.waiting - {b}), order', h);
  }

  lemma {:induction false} MissingStops(t: Table, order: seq<Handle>, h: Handle)
    requires h in order && h !in t.handlers
    ensures Bury(t, order, {}, true).2 == Missing
    decreases |order|
  {
    if order[0] != h && order[0] in t.handlers {
      MissingStops(t.(handlers := t.handlers - {order[0]}), order[1..], h);
    }
  }

  // ---------------------------------------------------------------- runs

  /**
   `registered` has every registration made, `places` the handle it got, and `withdrawn` are those taken away
   without a call. `raised` lists the handlers that raised when their respondent was lost, and `stopped` says how
   the exit went, once there was one.
   */
  datatype Sys = Sys(
    t: Table,
    calls: seq<Call>,
    registered: map<nat, Entry>,
    places: map<nat, Handle>,
    withdrawn: set<nat>,
    raised: seq<nat>,
    stopped: Option<Ending>)

  /** `raising` are the handlers that raise an exception when they get a dead message from this event. */
  datatype Event =
    | Add(wanted: Option<Handle>, e: Entry, overwrite: bool)
    | Remove(h: Handle)
    | Arrive(m: Msg, allowed: bool)
    | Lose(r: Id, order: seq<Handle>, raising: set<nat>)
    | Stop(order: seq<Handle>, raising: set<nat>)

  ghost predicate Enabled(sys: Sys, e: Event)
  {
    && sys.stopped.None?
    && match e
       case Add(_, entry, _) => entry.fn !in sys.registered
       case Lose(r, order, _) => Enumerates(order, HandlesOf(sys.t, r))
       case Stop(order, _) => Enumerates(order, sys.t.handlers.Keys)
       case _ => true
  }

  function FnAt(t: Table, h: Handle): set<nat>
  {
    if h in t.handlers then {t.handlers[h].fn} else {}
  }

  function Apply(sys: Sys, e: Event): Sys
  {
    match e
    case Add(wanted, entry, overwrite) =>
      var (t, h) := Register(sys.t, wanted, entry, overwrite);
      if h.None? then sys.(t := t)
      else
        sys.(t := t, registered := sys.registered[entry.fn := entry], places := sys.places[entry.fn := h.value],
             withdrawn := sys.withdrawn + FnAt(sys.t, h.value))
    case Remove(h) => sys.(t := Unregister(sys.t, h).0, withdrawn := sys.withdrawn + FnAt(sys.t, h))
    case Arrive(m, allowed) =>
      var (t, made, outcome) := Invoke(sys.t, m, allowed);
      sys.(t := t, calls := sys.calls + made,
           withdrawn := sys.withdrawn + (if outcome == KeyError then FnAt(sys.t, m.handle) else {}))
    case Lose(r, order, raising) =>
      Buried(sys, sys.t.(waiting := sys.t.waiting - {r}), order, raising, true)
    case Stop(order, raising) =>
      Buried(sys, sys.t, order, raising, false).(stopped := Some(Exit(sys.t, order, raising).2))
  }

  /** The system after a loop over `order`, starting from the table `t`. */
  function Buried(sys: Sys, t: Table, order: seq<Handle>, raising: set<nat>, callFirst: bool): Sys
  {
    var (t', made, ending) := Bury(t, order, raising, callFirst);
    sys.(t := t', calls := sys.calls + made,
         raised := if callFirst && ending.Broken? then sys.raised + [ending.fn] else sys.raised)
  }

  function CallsF(fn: nat): Call -> bool { (c: Call) => c.fn == fn }
  function BuriesF(fn: nat): Call -> bool { (c: Call) => c.fn == fn && c.dead }
  function IsF(fn: nat): nat -> bool { (x: nat) => x == fn }

  ghost predicate Live(handlers: map<Handle, Entry>, fn: nat)
  {
    exists h :: h in handlers && handlers[h].fn == fn
  }

  ghost predicate Listed(sys: Sys)
  {
    && (forall h :: h in sys.t.handlers ==>
          var e := sys.t.handlers[h]; e.fn in sys.registered && sys.registered[e.fn] == e && e.fn !in sys.withdrawn)
    && (forall h :: h in sys.t.handlers ==>
          var fn := sys.t.handlers[h].fn; fn in sys.places && sys.places[fn] == h)
    && (forall h, h' :: h in sys.t.handlers && h' in sys.t.handlers && sys.t.handlers[h].fn == sys.t.handlers[h'].fn ==>
          h == h')
    && sys.withdrawn <= sys.registered.Keys
    && (forall fn :: fn in sys.registered ==> sys.registered[fn].fn == fn)
    && (forall k :: 0 <= k < |sys.calls| ==> sys.calls[k].fn in sys.registered)
    && (forall fn :: fn in sys.raised ==> fn in sys.registered)
  }

  /** A one-shot handler has been called once for good, unless it is still there or was taken away. */
  ghost predicate Settled(sys: Sys, fn: nat)
  {
    fn in sys.registered && !sys.registered[fn].persist ==>
      Count(sys.calls, CallsF(fn)) ==
      Count(sys.raised, IsF(fn)) + (if Live(sys.t.handlers, fn) || fn in sys.withdrawn then 0 else 1)
  }

  ghost predicate Accounts(sys: Sys)
  {
    Listed(sys) && forall fn :: Settled(sys, fn)
  }

  ghost predicate Inv(sys: Sys)
  {
    Accounts(sys) && (sys.stopped == Some(Finished) ==> sys.t.handlers == map[])
  }

  // ---------------------------------------------------------------- steps

  /** Calling a handler for the last time. */
  lemma LastCall(sys: Sys, h: Handle, dead: bool, t': Table)
    requires Accounts(sys) && h in sys.t.handlers && t'.handlers == sys.t.handlers - {h}
    ensures Accounts(sys.(t := t', calls := sys.calls + [Call(sys.t.handlers[h].fn, dead)]))
  {
    hide Count;
    var c := Call(sys.t.handlers[h].fn, dead);
    var sys' := sys.(t := t', calls := sys.calls + [c]);
    forall fn ensures Settled(sys', fn) {
      assert Settled(sys, fn);
      CountSnoc(sys.calls, c, CallsF(fn));
      if Live(sys.t.handlers, fn) && fn != c.fn {
        var x :| x in sys.t.handlers && sys.t.handlers[x].fn == fn;
        assert x in t'.handlers;
      }
    }
  }

  /** Calling one that raises and stays. */
  lemma RaisingCall(sys: Sys, h: Handle, t': Table)
    requires Accounts(sys) && h in sys.t.handlers && t'.handlers == sys.t.handlers
    ensures var fn := sys.t.handlers[h].fn;
            Accounts(sys.(t := t', calls := sys.calls + [Call(fn, true)], raised := sys.raised + [fn]))
  {
    hide Count;
    var f := sys.t.handlers[h].fn;
    var sys' := sys.(t := t', calls := sys.calls + [Call(f, true)], raised := sys.raised + [f]);
    forall fn ensures Settled(sys', fn) {
      assert Settled(sys, fn);
      CountSnoc(sys.calls, Call(f, true), CallsF(fn));
      CountSnoc(sys.raised, f, IsF(fn));
    }
  }

  lemma {:induction false} BuryKeepsAccounts(
    sys: Sys, t: Table, order: seq<Handle>, raising: set<nat>, callFirst: bool)
    requires Accounts(sys) && t.handlers == sys.t.handlers
    ensures Accounts(Buried(sys, t, order, raising, callFirst))
    decreases |order|
  {
    hide Accounts;
    if order == [] || order[0] !in t.handlers {
      assert sys.calls + [] == sys.calls;
      SameHandlers(sys, t);
    } else {
      var fn := t.handlers[order[0]].fn;
      var c := [Call(fn, true)];
      var t1 := t.(handlers := t.handlers - {order[0]});
      LastCall(sys, order[0], true, t1);
      if fn in raising {
        RaisingCall(sys, order[0], t);
      } else {
        var sys1 := sys.(t := t1, calls := sys.calls + c);
        BuryKeepsAccounts(sys1, t1, order[1..], raising, callFirst);
        var (_, made, _) := Bury(t1, order[1..], raising, callFirst);
        assert sys.calls + (c + made) == sys.calls + c + made;
        assert Buried(sys, t, order, raising, callFirst) == Buried(sys1, t1, order[1..], raising, callFirst);
      }
    }
  }

  lemma SameHandlers(sys: Sys, t: Table)
    requires Accounts(sys) && t.handlers == sys.t.handlers
    ensures Accounts(sys.(t := t))
  {
    hide Count;
    forall fn ensures Settled(sys.(t := t), fn) {
      assert Settled(sys, fn);
    }
  }

  lemma AddKeepsAccounts(sys: Sys, e: Event)
    requires Accounts(sys) && Enabled(sys, e) && e.Add?
    ensures Accounts(Apply(sys, e))
  {
    hide Settled, Listed, Register;
    AddKeepsListed(sys, e);
    forall fn ensures Settled(Apply(sys, e), fn) {
      AddKeepsSettled(sys, e, fn);
    }
  }

  lemma AddKeepsListed(sys: Sys, e: Event)
    requires Listed(sys) && Enabled(sys, e) && e.Add?
    ensures Listed(Apply(sys, e))
  {
  }

  lemma AddKeepsSettled(sys: Sys, e: Event, fn: nat)
    requires Listed(sys) && Settled(sys, fn) && Enabled(sys, e) && e.Add?
    ensures Settled(Apply(sys, e), fn)
  {
    hide Count;
    var (t, h) := Register(sys.t, e.wanted, e.e, e.overwrite);
    if h.Some? {
      if fn == e.e.fn {
        assert t.handlers[h.value].fn == fn;
        CountNone(sys.calls, CallsF(fn));
        CountNone(sys.raised, IsF(fn));
      } else if Live(sys.t.handlers, fn) {
        var x :| x in sys.t.handlers && sys.t.handlers[x].fn == fn;
        assert x != h.value ==> t.handlers[x].fn == fn;
      }
    }
  }

  /** Taking a handler away without a call. */
  lemma WithdrawKeepsAccounts(sys: Sys, h: Handle, t': Table)
    requires Accounts(sys) && t'.handlers == sys.t.handlers - {h}
    ensures Accounts(sys.(t := t', withdrawn := sys.withdrawn + FnAt(sys.t, h)))
  {
    hide Count;
    var sys' := sys.(t := t', withdrawn := sys.withdrawn + FnAt(sys.t, h));
    forall fn ensures Settled(sys', fn) {
      assert Settled(sys, fn);
      if Live(sys.t.handlers, fn) {
        var x :| x in sys.t.handlers && sys.t.handlers[x].fn == fn;
        assert x != h ==> x in sys'.t.handlers;
      }
    }
  }

  lemma ArriveKeepsAccounts(sys: Sys, m: Msg, allowed: bool)
    requires Accounts(sys) && Enabled(sys, Arrive(m, allowed))
    ensures Accounts(Apply(sys, Arrive(m, allowed)))
  {
    hide Count, Accounts;
    var (t, made, outcome) := Invoke(sys.t, m, allowed);
    assert sys.calls + [] == sys.calls && sys.withdrawn + {} == sys.withdrawn;
    if outcome == Handled {
      var e := sys.t.handlers[m.handle];
      if !e.persist {
        LastCall(sys, m.handle, m.dead, t);
      } else {
        PersistentCall(sys, m.handle, m.dead);
      }
    } else if outcome == KeyError {
      WithdrawKeepsAccounts(sys, m.handle, t);
    }
  }

  lemma PersistentCall(sys: Sys, h: Handle, dead: bool)
    requires Accounts(sys) && h in sys.t.handlers && sys.t.handlers[h].persist
    ensures Accounts(sys.(calls := sys.calls + [Call(sys.t.handlers[h].fn, dead)]))
  {
    hide Count;
    var c := Call(sys.t.handlers[h].fn, dead);
    forall fn ensures Settled(sys.(calls := sys.calls + [c]), fn) {
      assert Settled(sys, fn);
      CountSnoc(sys.calls, c, CallsF(fn));
    }
  }

  lemma StepKeeps(sys: Sys, e: Event)
    requires Inv(sys) && Enabled(sys, e)
    ensures Inv(Apply(sys, e))
  {
    hide Accounts, Bury, Register, Invoke;
    match e
    case Add(_, _, _) => AddKeepsAccounts(sys, e);
    case Remove(h) => RemoveKeepsAccounts(sys, h);
    case Arrive(m, allowed) => ArriveKeepsAccounts(sys, m, allowed);
    case Lose(r, order, raising) =>
      BuryKeepsAccounts(sys, sys.t.(waiting := sys.t.waiting - {r}), order, raising, true);
    case Stop(order, raising) =>
      BuryKeepsAccounts(sys, sys.t, order, raising, false);
      StopKeepsAccounts(sys, order, raising);
      ExitEmpties(sys.t, order, raising);
  }

  lemma RemoveKeepsAccounts(sys: Sys, h: Handle)
    requires Accounts(sys)
    ensures Accounts(Apply(sys, Remove(h)))
  {
    hide Accounts;
    if h in sys.t.handlers {
      WithdrawKeepsAccounts(sys, h, Unregister(sys.t, h).0);
    } else {
      assert sys.withdrawn + {} == sys.withdrawn;
    }
  }

  lemma StopKeepsAccounts(sys: Sys, order: seq<Handle>, raising: set<nat>)
    requires Accounts(Buried(sys, sys.t, order, raising, false))
    ensures Accounts(Apply(sys, Stop(order, raising)))
  {
    hide Count, Bury;
    forall fn ensures Settled(Apply(sys, Stop(order, raising)), fn) {
      assert Settled(Buried(sys, sys.t, order, raising, false), fn);
    }
  }

  lemma ExitEmpties(t: Table, order: seq<Handle>, raising: set<nat>)
    requires Enumerates(order, t.handlers.Keys)
    ensures var (t', _, ending) := Exit(t, order, raising);
            (ending == Finished <==> forall h :: h in t.handlers ==> t.handlers[h].fn !in raising)
            && (ending == Finished ==> t'.handlers == map[]) && ending != Missing
  {
    BuriesUpTo(t, order, raising, false);
    var n := Reach(t.handlers, order, raising);
    if n < |order| {
      assert order[n] in order;
    } else {
      assert order[..n] == order;
      assert forall h :: h in t.handlers ==> h in order[..n];
    }
  }

  ghost predicate CanRun(sys: Sys, events: seq<Event>)
    decreases |events|
  {
    events == [] || (Enabled(sys, events[0]) && CanRun(Apply(sys, events[0]), events[1..]))
  }

  function Run(sys: Sys, events: seq<Event>): Sys
    decreases |events|
  {
    if events == [] then sys else Run(Apply(sys, events[0]), events[1..])
  }

  function Start(): Sys
  {
    Sys(Table(map[], map[], 1000), [], map[], map[], {}, [], None)
  }

  lemma {:induction false} RunKeeps(sys: Sys, events: seq<Event>)
    requires Inv(sys) && CanRun(sys, events)
    ensures Inv(Run(sys, events))
    decreases |events|
  {
    hide Inv, Apply, Enabled;
    if events != [] {
      StepKeeps(sys, events[0]);
      RunKeeps(Apply(sys, events[0]), events[1..]);
    }
  }

  lemma StartIsOk()
    ensures Inv(Start()) && Indexed(Start())
  {
  }

  /**
   How often a one-shot handler is called, in any run: once for each time it raised on the loss of a respondent,
   and once more unless it is there still or was taken away. It is still there after an exit only if that broke off.
   */
  lemma OneShotCalls(events: seq<Event>, fn: nat)
    requires CanRun(Start(), events)
    requires fn in Run(Start(), events).registered && !Run(Start(), events).registered[fn].persist
    ensures var sys := Run(Start(), events);
            && Count(sys.calls, CallsF(fn)) ==
               Count(sys.raised, IsF(fn)) + (if Live(sys.t.handlers, fn) || fn in sys.withdrawn then 0 else 1)
            && (sys.stopped == Some(Finished) ==> !Live(sys.t.handlers, fn))
  {
    StartIsOk();
    RunKeeps(Start(), events);
    assert Settled(Run(Start(), events), fn);
  }

  // ---------------------------------------------------------------- the calls that are due

  /** It comes from the one the handler waits for, or tells that there will be no answer. */
  predicate Expected(e: Entry, m: Msg)
  {
    e.respondent.None? || m.dead || m.src == e.respondent.value
  }

  /** Would `del_handler` succeed? */
  predicate Removable(t: Table, h: Handle)
  {
    h in t.handlers && (t.handlers[h].respondent.None? || t.handlers[h].respondent.value in t.waiting)
  }

  predicate Accepts(t: Table, m: Msg, allowed: bool)
  {
    && m.handle in t.handlers && allowed
    && var e := t.handlers[m.handle]; Expected(e, m) && (e.persist || Removable(t, m.handle))
  }

  /** When each of the answers is given; and whatever it is, only a one-shot handler is ever removed. */
  lemma MessageOutcome(t: Table, m: Msg, allowed: bool)
    ensures var (t', made, outcome) := Invoke(t, m, allowed); var there := m.handle in t.handlers;
            && made == (if Accepts(t, m, allowed) then [Call(t.handlers[m.handle].fn, m.dead)] else [])
            && (outcome == Handled <==> Accepts(t, m, allowed))
            && (outcome == InvalidHandle <==> !there)
            && (outcome == UnexpectedContext <==> there && !Expected(t.handlers[m.handle], m))
            && (outcome == Refused <==> there && Expected(t.handlers[m.handle], m) && !allowed)
            && (there && m.handle !in t'.handlers <==>
                  there && !t.handlers[m.handle].persist && outcome in {Handled, KeyError})
            && (forall h :: h != m.handle ==> (h in t'.handlers <==> h in t.handlers))
            && (forall h :: h in t'.handlers ==> h in t.handlers && t'.handlers[h] == t.handlers[h])
  {
    assert forall c: Call :: [c] != [];
  }

  /** The calls that the event should lead to. */
  ghost function DueOn(sys: Sys, e: Event): seq<Call>
  {
    match e
    case Arrive(m, allowed) =>
      if Accepts(sys.t, m, allowed) then [Call(sys.t.handlers[m.handle].fn, m.dead)] else []
    case Lose(_, order, raising) => Deaths(sys.t.handlers, Told(sys.t.handlers, order, raising))
    case Stop(order, raising) => Deaths(sys.t.handlers, Told(sys.t.handlers, order, raising))
    case _ => []
  }

  ghost function Due(sys: Sys, events: seq<Event>): seq<Call>
    decreases |events|
  {
    if events == [] then [] else DueOn(sys, events[0]) + Due(Apply(sys, events[0]), events[1..])
  }

  lemma CallsOfStep(sys: Sys, e: Event)
    requires Enabled(sys, e)
    ensures Apply(sys, e).calls == sys.calls + DueOn(sys, e)
  {
    hide Bury, Register, Unregister, Told;
    match e
    case Arrive(m, allowed) => MessageOutcome(sys.t, m, allowed);
    case Lose(r, order, raising) => BuriesUpTo(sys.t.(waiting := sys.t.waiting - {r}), order, raising, true);
    case Stop(order, raising) => BuriesUpTo(sys.t, order, raising, false);
    case _ => assert sys.calls + [] == sys.calls;
  }

  lemma {:induction false} CallsAreDue(sys: Sys, events: seq<Event>)
    requires CanRun(sys, events)
    ensures Run(sys, events).calls == sys.calls + Due(sys, events)
    decreases |events|
  {
    hide Apply, Enabled, DueOn;
    if events != [] {
      var sys', due := Apply(sys, events[0]), DueOn(sys, events[0]);
      CallsOfStep(sys, events[0]);
      CallsAreDue(sys', events[1..]);
      assert sys.calls + due + Due(sys', events[1..]) == sys.calls + (due + Due(sys', events[1..]));
    }
  }

  lemma CountOnlyAt<T(!new)>(s: seq<T>, i: nat, f: T -> bool)
    requires i < |s| && f(s[i]) && forall k :: 0 <= k < |s| && k != i ==> !f(s[k])
    ensures Count(s, f) == 1
  {
    CountRemove(s, i, f);
    var rest := RemoveAt(s, i);
    forall x | x in rest ensures !f(x) {
      var k :| 0 <= k < |rest| && rest[k] == x;
      assert x == s[if k < i then k else k + 1];
    }
    CountNone(rest, f);
  }

  /** Does the event make `fn` be called? */
  ghost predicate Concerns(sys: Sys, e: Event, fn: nat)
  {
    match e
    case Arrive(m, allowed) => Accepts(sys.t, m, allowed) && sys.t.handlers[m.handle].fn == fn
    case Lose(_, order, raising) => Tells(sys.t.handlers, order, raising, fn)
    case Stop(order, raising) => Tells(sys.t.handlers, order, raising, fn)
    case _ => false
  }

  ghost predicate Tells(handlers: map<Handle, Entry>, order: seq<Handle>, raising: set<nat>, fn: nat)
  {
    exists h :: h in Told(handlers, order, raising) && handlers[h].fn == fn
  }

  ghost function HowOften(sys: Sys, events: seq<Event>, fn: nat): nat
    decreases |events|
  {
    if events == [] then 0
    else (if Concerns(sys, events[0], fn) then 1 else 0) + HowOften(Apply(sys, events[0]), events[1..], fn)
  }

  lemma CountOfStep(sys: Sys, e: Event, fn: nat)
    requires Listed(sys) && Enabled(sys, e)
    ensures Count(DueOn(sys, e), CallsF(fn)) == if Concerns(sys, e, fn) then 1 else 0
  {
    hide Reach, Deaths;
    match e
    case Arrive(m, allowed) =>
      if Accepts(sys.t, m, allowed) {
        CountSnoc([], Call(sys.t.handlers[m.handle].fn, m.dead), CallsF(fn));
      }
    case Lose(_, order, raising) => CountTold(sys, order, raising, fn);
    case Stop(order, raising) => CountTold(sys, order, raising, fn);
    case _ =>
  }

  lemma CountTold(sys: Sys, order: seq<Handle>, raising: set<nat>, fn: nat)
    requires Listed(sys) && Distinct(order)
    ensures Count(Deaths(sys.t.handlers, Told(sys.t.handlers, order, raising)), CallsF(fn))
            == if Tells(sys.t.handlers, order, raising, fn) then 1 else 0
  {
    hide Count, Reach, Deaths;
    var told := Told(sys.t.handlers, order, raising);
    var made := Deaths(sys.t.handlers, told);
    if Tells(sys.t.handlers, order, raising, fn) {
      var h :| h in told && sys.t.handlers[h].fn == fn;
      var i :| 0 <= i < |told| && told[i] == h;
      forall k | 0 <= k < |made| && k != i ensures !CallsF(fn)(made[k]) {
        assert told[k] in told && told[k] != h by {
          assert told[k] == order[k] && told[i] == order[i];
        }
      }
      CountOnlyAt(made, i, CallsF(fn));
    } else {
      forall c | c in made ensures !CallsF(fn)(c) {
        var k :| 0 <= k < |made| && made[k] == c;
        assert told[k] in told;
      }
      CountNone(made, CallsF(fn));
    }
  }

  lemma {:induction false} CountedIn(sys: Sys, events: seq<Event>, fn: nat)
    requires Inv(sys) && CanRun(sys, events)
    ensures Count(Due(sys, events), CallsF(fn)) == HowOften(sys, events, fn)
    decreases |events|
  {
    hide Settled, Apply, Enabled, DueOn, Concerns, Listed;
    if events != [] {
      CountOfStep(sys, events[0], fn);
      StepKeeps(sys, events[0]);
      CountedIn(Apply(sys, events[0]), events[1..], fn);
      CountConcat(DueOn(sys, events[0]), Due(Apply(sys, events[0]), events[1..]), CallsF(fn));
    }
  }

  /**
   Over all runs, the calls are exactly those due, in order: one for each message that is accepted, with the
   message's own flag, and one for each handler that is told that its respondent or the broker is gone. So every
   handler, persistent or not, is called as often as these events concern it.
   */
  lemma CallsAreThoseDue(events: seq<Event>, fn: nat)
    requires CanRun(Start(), events)
    ensures Run(Start(), events).calls == Due(Start(), events)
    ensures Count(Run(Start(), events).calls, CallsF(fn)) == HowOften(Start(), events, fn)
  {
    hide Run, CanRun, Due, HowOften;
    StartIsOk();
    CallsAreDue(Start(), events);
    CountedIn(Start(), events, fn);
    assert [] + Due(Start(), events) == Due(Start(), events);
  }

  /**
   After any run, a message leads to one call, of the handler that was registered at its handle and not taken
   away since, exactly if the policy allows the message, that handler expects it, and, being a one-shot one, can
   be removed. Otherwise nothing is called. A persistent handler stays.
   */
  lemma OneCallPerMessage(events: seq<Event>, m: Msg, allowed: bool)
    requires CanRun(Start(), events)
    ensures var sys := Run(Start(), events); var sys' := Apply(sys, Arrive(m, allowed));
            if Accepts(sys.t, m, allowed) then
              var e := sys.t.handlers[m.handle];
              && sys'.calls == sys.calls + [Call(e.fn, m.dead)]
              && e.fn in sys.registered && sys.registered[e.fn] == e && e.fn !in sys.withdrawn
              && e.fn in sys.places && sys.places[e.fn] == m.handle
              && (m.handle in sys'.t.handlers <==> e.persist)
            else sys'.calls == sys.calls
  {
    hide Run, CanRun, Settled, Invoke;
    StartIsOk();
    RunKeeps(Start(), events);
    MessageOutcome(Run(Start(), events).t, m, allowed);
  }

  // ---------------------------------------------------------------- runs that keep the index sound

  /** In these runs no handle is taken away from a handler that waits for somebody else. */
  ghost predicate ProperRun(sys: Sys, events: seq<Event>)
    decreases |events|
  {
    || events == []
    || (&& Enabled(sys, events[0])
        && (events[0].Add? ==> Takes(sys.t, events[0].wanted, events[0].e, events[0].overwrite))
        && ProperRun(Apply(sys, events[0]), events[1..]))
  }

  lemma {:induction false} ProperRunsRun(sys: Sys, events: seq<Event>)
    requires ProperRun(sys, events)
    ensures CanRun(sys, events)
    decreases |events|
  {
    hide Enabled, Apply;
    if events != [] {
      ProperRunsRun(Apply(sys, events[0]), events[1..]);
    }
  }

  /** The index lists nothing wrongly, and everything as long as no handler has raised on a loss. */
  ghost predicate Indexed(sys: Sys)
  {
    && (sys.stopped.None? ==> Sound(sys.t) && (sys.raised == [] ==> Inverse(sys.t)))
    && (forall fn :: fn in sys.raised ==> fn in sys.registered && sys.registered[fn].respondent.Some?)
  }

  lemma StepKeepsIndexed(sys: Sys, e: Event)
    requires Inv(sys) && Indexed(sys) && Enabled(sys, e)
    requires e.Add? ==> Takes(sys.t, e.wanted, e.e, e.overwrite)
    ensures Indexed(Apply(sys, e))
  {
    hide Settled, Bury, Sound, Inverse, Register, Unregister;
    match e
    case Add(wanted, entry, overwrite) =>
      RegisterKeepsSound(sys.t, wanted, entry, overwrite);
      if sys.raised == [] {
        RegisterKeepsInverseIff(sys.t, wanted, entry, overwrite);
      }
    case Remove(h) =>
      UnregisterKeepsSound(sys.t, h);
      if sys.raised == [] {
        UnregisterKeepsInverse(sys.t, h);
      }
    case Arrive(m, allowed) =>
      UnregisterKeepsSound(sys.t, m.handle);
      if sys.raised == [] {
        InvokeKeepsInverse(sys.t, m, allowed);
      }
    case Lose(r, order, raising) => LoseKeepsIndexed(sys, r, order, raising);
    case Stop(_, _) =>
  }

  lemma LoseKeepsIndexed(sys: Sys, r: Id, order: seq<Handle>, raising: set<nat>)
    requires Inv(sys) && Indexed(sys) && Enabled(sys, Lose(r, order, raising))
    ensures Indexed(Apply(sys, Lose(r, order, raising)))
  {
    hide Settled, Bury, Deaths, Told, Sound, Inverse, HandlesOf, Distinct;
    var t0 := sys.t.(waiting := sys.t.waiting - {r});
    DisconnectKeepsSound(sys.t, r, order, raising);
    ListedAreThere(sys, r, order, raising);
    BuriesUpTo(t0, order, raising, true);
    var n := Reach(t0.handlers, order, raising);
    if n < |order| {
      assert order[n] in order;
    } else if sys.raised == [] {
      DisconnectKeepsInverseIff(sys.t, r, order, raising);
      assert order[..n] == order;
    }
  }

  lemma {:induction false} ProperRunKeeps(sys: Sys, events: seq<Event>)
    requires Inv(sys) && Indexed(sys) && ProperRun(sys, events)
    ensures Inv(Run(sys, events)) && Indexed(Run(sys, events))
    decreases |events|
  {
    hide Inv, Indexed, Apply, Enabled, Takes;
    if events != [] {
      StepKeeps(sys, events[0]);
      StepKeepsIndexed(sys, events[0]);
      ProperRunKeeps(Apply(sys, events[0]), events[1..]);
    }
  }

  /** Only handlers in `crash` ever raise on a dead message. */
  ghost predicate RaisesOnly(events: seq<Event>, crash: set<nat>)
  {
    forall k :: 0 <= k < |events| && (events[k].Lose? || events[k].Stop?) ==> events[k].raising <= crash
  }

  lemma {:induction false} BrokenRaises(t: Table, order: seq<Handle>, raising: set<nat>, callFirst: bool)
    ensures var ending := Bury(t, order, raising, callFirst).2; ending.Broken? ==> ending.fn in raising
    decreases |order|
  {
    if order != [] && order[0] in t.handlers {
      BrokenRaises(t.(handlers := t.handlers - {order[0]}), order[1..], raising, callFirst);
    }
  }

  lemma {:induction false} RaisedIsAllowed(sys: Sys, events: seq<Event>, crash: set<nat>)
    requires RaisesOnly(events, crash) && forall fn :: fn in sys.raised ==> fn in crash
    ensures forall fn :: fn in Run(sys, events).raised ==> fn in crash
    decreases |events|
  {
    hide Bury;
    if events != [] {
      var e := events[0];
      if e.Lose? {
        BrokenRaises(sys.t.(waiting := sys.t.waiting - {e.r}), e.order, e.raising, true);
      }
      RaisedIsAllowed(Apply(sys, e), events[1..], crash);
    }
  }

  /** The handler was registered as `e`, and called more than once. */
  ghost predicate CalledAgain(events: seq<Event>, e: Entry)
  {
    var sys := Run(Start(), events);
    e.fn in sys.registered && sys.registered[e.fn] == e && Count(sys.calls, CallsF(e.fn)) > 1
  }

  /**
   A one-shot handler is called at most once in all runs exactly if it never raises on a dead message; and in all
   runs without foreign overwriting exactly if it does not, or waits for nobody.
   */
  lemma OneShotRunsAtMostOnceIff(e: Entry, crash: set<nat>)
    requires !e.persist
    ensures (forall events :: CanRun(Start(), events) && RaisesOnly(events, crash) ==> !CalledAgain(events, e))
            <==> e.fn !in crash
    ensures (forall events :: ProperRun(Start(), events) && RaisesOnly(events, crash) ==> !CalledAgain(events, e))
            <==> e.fn !in crash || e.respondent.None?
  {
    hide CanRun, ProperRun, RaisesOnly, CalledAgain;
    if e.fn !in crash {
      forall events | CanRun(Start(), events) && RaisesOnly(events, crash) ensures !CalledAgain(events, e) {
        NeverAgain(events, e, crash);
      }
    } else {
      var events := AgainAfterOverwrite(e);
      OnlyIt(events, e, crash);
    }
    if e.fn !in crash || e.respondent.None? {
      forall events | ProperRun(Start(), events) && RaisesOnly(events, crash) ensures !CalledAgain(events, e) {
        ProperRunsRun(Start(), events);
        NeverAgain(events, e, crash);
      }
    } else {
      var events := AgainAfterLoss(e);
      OnlyIt(events, e, crash);
    }
  }

  lemma OnlyIt(events: seq<Event>, e: Entry, crash: set<nat>)
    requires RaisesOnly(events, {e.fn}) && e.fn in crash
    ensures RaisesOnly(events, crash)
  {
  }

  lemma NeverAgain(events: seq<Event>, e: Entry, crash: set<nat>)
    requires !e.persist && CanRun(Start(), events) && RaisesOnly(events, crash)
    requires e.fn !in crash || (e.respondent.None? && ProperRun(Start(), events))
    ensures !CalledAgain(events, e)
  {
    hide CanRun, RaisesOnly, ProperRun, Run;
    var sys := Run(Start(), events);
    if e.fn in sys.registered && sys.registered[e.fn] == e {
      OneShotCalls(events, e.fn);
      RaisedIsAllowed(Start(), events, crash);
      if e.fn in crash {
        StartIsOk();
        ProperRunKeeps(Start(), events);
      }
      CountNone(sys.raised, IsF(e.fn));
    }
  }

  lemma OneMore(sys: Sys, e: Event, next: Sys, rest: seq<Event>)
    requires Enabled(sys, e) && next == Apply(sys, e)
    ensures Run(sys, [e] + rest) == Run(next, rest)
    ensures CanRun(next, rest) ==> CanRun(sys, [e] + rest)
    ensures ProperRun(next, rest) && (e.Add? ==> Takes(sys.t, e.wanted, e.e, e.overwrite)) ==>
      ProperRun(sys, [e] + rest)
  {
    assert ([e] + rest)[1..] == rest;
  }

  lemma CalledTwice(c: Call)
    ensures Count([c] + [c], CallsF(c.fn)) == 2
  {
    CountAll([c] + [c], CallsF(c.fn));
  }

  /** It raises when its respondent is lost, and is called again by the exit. */
  lemma AgainAfterLoss(e: Entry) returns (events: seq<Event>)
    requires e.respondent.Some?
    ensures ProperRun(Start(), events) && RaisesOnly(events, {e.fn}) && CalledAgain(events, e)
  {
    hide Apply, Enabled, ProperRun, Run, Takes;
    var r, c := e.respondent.value, Call(e.fn, true);
    var s1 := Sys(Table(map[1000 := e], map[r := {1000}], 1001), [], map[e.fn := e], map[e.fn := 1000], {}, [], None);
    var s2 := s1.(t := s1.t.(waiting := s1.t.waiting - {r}), calls := [c], raised := [e.fn]);
    var s3 := s2.(t := s2.t.(handlers := map[]), calls := [c] + [c], stopped := Some(Finished));
    var e1, e2, e3 := Event.Add(None, e, false), Lose(r, [1000], {e.fn}), Stop([1000], {});
    events := [e1] + ([e2] + ([e3] + []));
    FirstStep(e, r);
    RaisingStep(s1, e, r);
    LastStep(s2, e);
    EndOfRun(s3);
    OneMore(s2, e3, s3, []);
    OneMore(s1, e2, s2, [e3] + []);
    OneMore(Start(), e1, s1, [e2] + ([e3] + []));
    CalledTwice(c);
  }

  /** It is put in the place of a handler that waits for somebody else. */
  lemma AgainAfterOverwrite(e: Entry) returns (events: seq<Event>)
    ensures CanRun(Start(), events) && RaisesOnly(events, {e.fn}) && CalledAgain(events, e)
  {
    hide Apply, Enabled, ProperRun, CanRun, Run, Takes;
    var first, c := Entry(false, e.fn + 1, Some(0)), Call(e.fn, true);
    var t1 := Table(map[1000 := first], map[0 := {1000}], 1001);
    var s1 := Sys(t1, [], map[first.fn := first], map[first.fn := 1000], {}, [], None);
    var s2 := OverwriteStep(s1, first, e);
    var s3 := s2.(t := s2.t.(waiting := s2.t.waiting - {0}), calls := [c], raised := [e.fn]);
    var s4 := s3.(t := s3.t.(handlers := map[]), calls := [c] + [c], stopped := Some(Finished));
    var e1, e2 := Event.Add(None, first, false), Event.Add(Some(1000), e, true);
    var e3, e4 := Lose(0, [1000], {e.fn}), Stop([1000], {});
    events := [e1] + ([e2] + ([e3] + ([e4] + [])));
    FirstStep(first, 0);
    RaisingStep(s2, e, 0);
    LastStep(s3, e);
    EndOfRun(s4);
    OneMore(s3, e4, s4, []);
    OneMore(s2, e3, s3, [e4] + []);
    OneMore(s1, e2, s2, [e3] + ([e4] + []));
    OneMore(Start(), e1, s1, [e2] + ([e3] + ([e4] + [])));
    CalledTwice(c);
  }

  lemma FirstStep(e: Entry, r: Id)
    requires e.respondent == Some(r)
    ensures var add := Event.Add(None, e, false);
            && Enabled(Start(), add) && Takes(Start().t, None, e, false)
            && var t := Table(map[1000 := e], map[r := {1000}], 1001);
               Apply(Start(), add) == Sys(t, [], map[e.fn := e], map[e.fn := 1000], {}, [], None)
  {
    assert {} + {1000} == {1000} && FnAt(Start().t, 1000) == {};
  }

  lemma OverwriteStep(s: Sys, first: Entry, e: Entry) returns (s': Sys)
    requires s.t == Table(map[1000 := first], map[0 := {1000}], 1001) && s.registered == map[first.fn := first]
    requires e.fn != first.fn && s.stopped.None?
    ensures Enabled(s, Event.Add(Some(1000), e, true)) && s' == Apply(s, Event.Add(Some(1000), e, true))
    ensures s'.t.handlers == map[1000 := e] && HandlesOf(s'.t, 0) == {1000}
    ensures e.fn in s'.registered && s'.registered[e.fn] == e
    ensures s'.calls == s.calls && s'.raised == s.raised && s'.stopped == s.stopped
  {
    s' := Apply(s, Event.Add(Some(1000), e, true));
  }

  lemma RaisingStep(s: Sys, e: Entry, r: Id)
    requires s.t.handlers == map[1000 := e] && HandlesOf(s.t, r) == {1000} && s.stopped.None?
    requires s.calls == [] && s.raised == []
    ensures var lose := Lose(r, [1000], {e.fn});
            && Enabled(s, lose)
            && Apply(s, lose) ==
               s.(t := s.t.(waiting := s.t.waiting - {r}), calls := [Call(e.fn, true)], raised := [e.fn])
  {
  }

  lemma LastStep(s: Sys, e: Entry)
    requires s.t.handlers == map[1000 := e] && s.stopped.None?
    ensures var stop := Stop([1000], {});
            && Enabled(s, stop)
            && Apply(s, stop) ==
               s.(t := s.t.(handlers := map[]), calls := s.calls + [Call(e.fn, true)], stopped := Some(Finished))
  {
    assert map[1000 := e] - {1000} == map[];
    assert [1000][1..] == [];
    assert [Call(e.fn, true)] + [] == [Call(e.fn, true)];
  }

  lemma EndOfRun(s: Sys)
    ensures ProperRun(s, []) && CanRun(s, []) && Run(s, []) == s
  {
  }

  // ---------------------------------------------------------------- losses

  /** The handler at `h` gets one dead message, and is gone. */
  ghost predicate Reported(sys: Sys, sys': Sys, h: Handle)
    requires h in sys.t.handlers
  {
    var fn := sys.t.handlers[h].fn;
    Count(sys'.calls, BuriesF(fn)) == Count(sys.calls, BuriesF(fn)) + 1 && h !in sys'.t.handlers
  }

  /** The handlers that get a message are called once, and no others are. */
  lemma CountDeaths(sys: Sys, order: seq<Handle>, h: Handle)
    requires Listed(sys) && h in sys.t.handlers
    requires Distinct(order) && forall x :: x in order ==> x in sys.t.handlers
    ensures Count(Deaths(sys.t.handlers, order), BuriesF(sys.t.handlers[h].fn)) == if h in order then 1 else 0
  {
    hide Count;
    var made, fn := Deaths(sys.t.handlers, order), sys.t.handlers[h].fn;
    if h in order {
      var i :| 0 <= i < |order| && order[i] == h;
      forall k | 0 <= k < |made| && k != i ensures !BuriesF(fn)(made[k]) {
        assert order[k] in order && order[k] != h;
      }
      CountOnlyAt(made, i, BuriesF(fn));
    } else {
      forall c | c in made ensures !BuriesF(fn)(c) {
        var k :| 0 <= k < |made| && made[k] == c;
        assert order[k] in order;
      }
      CountNone(made, BuriesF(fn));
    }
  }

  lemma ListedAreThere(sys: Sys, r: Id, order: seq<Handle>, raising: set<nat>)
    requires Indexed(sys) && Enabled(sys, Lose(r, order, raising))
    ensures forall h :: h in order <==> h in HandlesOf(sys.t, r)
    ensures forall h :: h in order ==> h in sys.t.handlers && sys.t.handlers[h].respondent == Some(r)
    ensures var n := Reach(sys.t.handlers, order, raising);
            Told(sys.t.handlers, order, raising) == order[..if n < |order| then n + 1 else n]
    ensures sys.raised == [] ==>
      HandlesOf(sys.t, r) == set h | h in sys.t.handlers && sys.t.handlers[h].respondent == Some(r)
  {
  }

  /** When a respondent is lost, the handlers listed for it are told in turn, up to the first that raises. */
  lemma LossReaches(sys: Sys, r: Id, order: seq<Handle>, raising: set<nat>, h: Handle)
    requires Inv(sys) && Indexed(sys) && Enabled(sys, Lose(r, order, raising)) && h in sys.t.handlers
    ensures var sys' := Apply(sys, Lose(r, order, raising)); var e := sys.t.handlers[h];
            var n := Reach(sys.t.handlers, order, raising);
            && Count(sys'.calls, BuriesF(e.fn)) == Count(sys.calls, BuriesF(e.fn))
                 + (if h in order[..if n < |order| then n + 1 else n] then 1 else 0)
            && (h in sys'.t.handlers <==> h !in order[..n])
            && (h in order ==> e.respondent == Some(r))
            && (sys.raised == [] ==> (h in order <==> e.respondent == Some(r)))
  {
    hide Settled, Count, Bury, Deaths, Told, Reach, Distinct, HandlesOf;
    var t0 := sys.t.(waiting := sys.t.waiting - {r});
    ListedAreThere(sys, r, order, raising);
    BuriesUpTo(t0, order, raising, true);
    var told := Told(sys.t.handlers, order, raising);
    HeadIsDistinct(order, |told|);
    CountDeaths(sys, told, h);
    CountConcat(sys.calls, Deaths(sys.t.handlers, told), BuriesF(sys.t.handlers[h].fn));
  }

  /**
   In any run without foreign overwriting: losing a respondent gives each handler listed for it one dead message
   and removes it, up to the first that raises, which gets its message and stays. A handler waits for whom it is
   listed, and as long as none has raised on a loss it is listed for whom it waits.
   */
  lemma LostRespondentIsReported(events: seq<Event>, r: Id, order: seq<Handle>, raising: set<nat>, h: Handle)
    requires ProperRun(Start(), events)
    requires Enabled(Run(Start(), events), Lose(r, order, raising)) && h in Run(Start(), events).t.handlers
    ensures var sys := Run(Start(), events); var sys' := Apply(sys, Lose(r, order, raising));
            var e := sys.t.handlers[h];
            var reached := h in order && forall j :: 0 <= j < IndexOf(order, h) ==>
              order[j] in sys.t.handlers && sys.t.handlers[order[j]].fn !in raising;
            && Count(sys'.calls, BuriesF(e.fn)) == Count(sys.calls, BuriesF(e.fn)) + (if reached then 1 else 0)
            && (h in sys'.t.handlers <==> !reached || e.fn in raising)
            && (h in order ==> e.respondent == Some(r))
            && (sys.raised == [] ==> (h in order <==> e.respondent == Some(r)))
  {
    hide Inv, Indexed, Apply, Enabled, ProperRun, Run, Count;
    StartIsOk();
    ProperRunKeeps(Start(), events);
    var sys := Run(Start(), events);
    LossReaches(sys, r, order, raising, h);
    ReachAt(sys, r, order, raising, h);
  }

  lemma ReachAt(sys: Sys, r: Id, order: seq<Handle>, raising: set<nat>, h: Handle)
    requires Indexed(sys) && Enabled(sys, Lose(r, order, raising)) && h in sys.t.handlers
    ensures var n := Reach(sys.t.handlers, order, raising);
            var reached := h in order && forall j :: 0 <= j < IndexOf(order, h) ==>
              order[j] in sys.t.handlers && sys.t.handlers[order[j]].fn !in raising;
            && (reached <==> h in order[..if n < |order| then n + 1 else n])
            && (reached && sys.t.handlers[h].fn !in raising <==> h in order[..n])
  {
    var n := Reach(sys.t.handlers, order, raising);
    assert forall x :: x in order ==> x in HandlesOf(sys.t, r);
    if h in order {
      var i := IndexOf(order, h);
      assert forall j: nat :: j <= |order| ==> (h in order[..j] <==> i < j) by {
        forall j: nat | j <= |order| ensures h in order[..j] <==> i < j {
          if i < j {
            assert order[..j][i] == h;
          }
        }
      }
      assert n < |order| ==> order[n] in order;
    }
  }

  /**
   So each handler waiting for the lost respondent is reported to and removed, exactly if they are all listed for
   it and none of them raises; where none has raised before, exactly if none of them does.
   */
  lemma AllWaitersReportedIff(events: seq<Event>, r: Id, order: seq<Handle>, raising: set<nat>)
    requires ProperRun(Start(), events) && Enabled(Run(Start(), events), Lose(r, order, raising))
    ensures var sys := Run(Start(), events); var sys' := Apply(sys, Lose(r, order, raising));
            var waiting := set h | h in sys.t.handlers && sys.t.handlers[h].respondent == Some(r);
            && ((forall h :: h in waiting ==> Reported(sys, sys', h)) <==>
                forall h :: h in waiting ==> h in HandlesOf(sys.t, r) && sys.t.handlers[h].fn !in raising)
            && (sys.raised == [] ==> waiting == HandlesOf(sys.t, r))
  {
    hide Inv, Apply, ProperRun, Run, Count, Indexed;
    StartIsOk();
    ProperRunKeeps(Start(), events);
    var sys := Run(Start(), events);
    var sys' := Apply(sys, Lose(r, order, raising));
    var n := Reach(sys.t.handlers, order, raising);
    forall h | h in sys.t.handlers
      ensures Reported(sys, sys', h) <==> h in order[..n]
      ensures h in order ==> sys.t.handlers[h].respondent == Some(r)
      ensures sys.raised == [] ==> (h in order <==> sys.t.handlers[h].respondent == Some(r))
    {
      LossReaches(sys, r, order, raising, h);
    }
    ListedAreThere(sys, r, order, raising);
    var waiting := set h | h in sys.t.handlers && sys.t.handlers[h].respondent == Some(r);
    if forall h :: h in waiting ==> h in HandlesOf(sys.t, r) && sys.t.handlers[h].fn !in raising {
      ReachAll(sys.t.handlers, order, raising);
      assert order[..n] == order;
    }
  }
}
