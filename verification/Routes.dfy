/**
 `RouteMonitor`: contexts form a tree, and each keeps a table of the contexts below it by
 exchanging ADD_ROUTE and DEL_ROUTE over first-in-first-out links.
 */
module Routes {
  import opened Seqs

  type Id = nat

  const MASTER: Id := 0

  /**
   The routing state of one context. A stream is named by the id of the neighbour it leads to:
   `routes` is `_routes_by_stream`, `table` is `_stream_by_id`, `contexts` the keys of `_context_by_id`.
   */
  datatype Tables = Tables(parent: Option<Id>, routes: map<Id, set<Id>>, table: map<Id, Id>, contexts: set<Id>)

  datatype Msg = Add(target: Id) | Del(target: Id) | Reply(target: Id, dst: Id)

  /** The stream to the parent is there: what is sent upward is queued on it. */
  predicate HasUplink(s: Tables)
  {
    s.parent.Some? && s.parent.value in s.table
  }

  /** `stream_by_id`: the known stream, or the parent's. */
  function StreamById(s: Tables, id: Id): Option<Id>
  {
    if id in s.table then Some(s.table[id])
    else if s.parent.Some? && s.parent.value in s.table then Some(s.table[s.parent.value])
    else None
  }

  /** `Router.register` and `notice_stream` for a new child. */
  function Notice(s: Tables, child: Id): Tables
  {
    s.(routes := s.routes[child := {child}], table := s.table[child := child], contexts := s.contexts + {child})
  }

  /** `_on_add_route`: the new state, and whether the message is passed on to the parent. */
  function OnAdd(s: Tables, src: Id, target: Id): (Tables, bool)
  {
    var s1 := s.(contexts := s.contexts + {target});
    var stream, current := StreamById(s, src), StreamById(s, target);
    if current.Some? && current != s.parent then (s1, false)
    else if stream.None? || stream.value !in s.routes then (s1, false)
    else
      (s1.(routes := s.routes[stream.value := s.routes[stream.value] + {target}],
           table := s.table[target := stream.value]), true)
  }

  /** `_on_del_route`. */
  function OnDel(s: Tables, src: Id, target: Id): (Tables, bool)
  {
    var registered, stream := StreamById(s, target), StreamById(s, src);
    if registered.None? || registered != stream then (s, false)
    else
      var routes := if stream.value in s.routes
                    then s.routes[stream.value := s.routes[stream.value] - {target}] else s.routes;
      (s.(routes := routes, table := s.table - {target}), stream != s.parent)
  }

  /**
   Whoever sends it, ADD_ROUTE takes no route away but to the parent: it is accepted exactly if it comes over a
   child's stream, and no other stream than the parent's is known for the target, which then is behind that child.
   */
  lemma AddTakesNoRoute(s: Tables, src: Id, target: Id)
    ensures var (s', pass) := OnAdd(s, src, target); var from := StreamById(s, src);
            && (pass <==> from.Some? && from.value in s.routes && StreamById(s, target) in {None, s.parent})
            && (forall t :: t in s'.table <==> t in s.table || (pass && t == target))
            && (forall t :: t in s.table && s'.table[t] != s.table[t] ==> t == target && Some(s.table[t]) == s.parent)
            && (pass ==> s'.table[target] == from.value && target in s'.routes[from.value])
            && s'.routes.Keys == s.routes.Keys && s'.contexts == s.contexts + {target}
            && (forall d, t :: d in s.routes ==>
                  (t in s'.routes[d] <==> t in s.routes[d] || (pass && t == target && from == Some(d))))
  {
  }

  /** DEL_ROUTE takes away the route to its target, and only if it comes over the stream of that route. */
  lemma DelTakesOwnRoute(s: Tables, src: Id, target: Id)
    ensures var (s', pass) := OnDel(s, src, target); var from := StreamById(s, src);
            && (forall t :: t in s'.table <==> t in s.table && (t == target ==> from != Some(s.table[t])))
            && (forall t :: t in s'.table ==> s'.table[t] == s.table[t])
            && s'.routes.Keys == s.routes.Keys && s'.contexts == s.contexts
            && (forall d, t :: d in s.routes ==>
                  (t in s'.routes[d] <==>
                     t in s.routes[d] && !(t == target && from == Some(d) && StreamById(s, target) == from)))
            && (pass <==> from.Some? && from == StreamById(s, target) && from != s.parent)
  {
  }

  /** The contexts whose own disconnect handlers run when the stream to `child` is lost. */
  function Lost(s: Tables, child: Id): set<Id>
  {
    set id | id in s.contexts && id in s.table && s.table[id] == child
  }

  /** The disconnect handlers of `core.Router` and then of `RouteMonitor`. */
  function OnDisconnect(s: Tables, child: Id): Tables
    requires child in s.routes
  {
    s.(routes := s.routes - {child}, table := s.table - Lost(s, child) - s.routes[child])
  }

  /** A stream, but for the parent's, on which something has come for `target`. */
  predicate Told(s: Tables, egress: map<Id, set<Id>>, target: Id, stream: Id)
  {
    stream in egress && target in egress[stream] && s.parent != Some(stream)
  }

  function EntriesOver(s: Tables, stream: Id): set<Id>
  {
    set t | t in s.table && s.table[t] == stream
  }

  /** The loss of `target` is told on such streams only, and once for each entry of the table that uses the stream. */
  ghost predicate Broadcast(s: Tables, egress: map<Id, set<Id>>, target: Id, down: seq<Id>)
  {
    BroadcastBut(s, egress, target, down, {})
  }

  /** ... except for the entries in `todo`. */
  ghost predicate BroadcastBut(s: Tables, egress: map<Id, set<Id>>, target: Id, down: seq<Id>, todo: set<Id>)
  {
    forall e :: multiset(down)[e] == if Told(s, egress, target, e) then |EntriesOver(s, e) - todo| else 0
  }

  lemma BroadcastStep(s: Tables, egress: map<Id, set<Id>>, target: Id, down: seq<Id>, todo: set<Id>, t: Id)
    requires BroadcastBut(s, egress, target, down, todo) && t in todo && t in s.table
    ensures var down' := if Told(s, egress, target, s.table[t]) then down + [s.table[t]] else down;
            BroadcastBut(s, egress, target, down', todo - {t})
  {
    var stream := s.table[t];
    var down' := if Told(s, egress, target, stream) then down + [stream] else down;
    forall e
      ensures multiset(down')[e] == if Told(s, egress, target, e) then |EntriesOver(s, e) - (todo - {t})| else 0
    {
      assert multiset(down)[e] == if Told(s, egress, target, e) then |EntriesOver(s, e) - todo| else 0;
      assert EntriesOver(s, e) - (todo - {t}) == EntriesOver(s, e) - todo + (if e == stream then {t} else {});
    }
  }

  /** What is broadcast when the routes in `order` are withdrawn one after the other. */
  ghost predicate Broadcasts(s: Tables, child: Id, egress: map<Id, set<Id>>, order: seq<Id>, down: seq<seq<Id>>)
  {
    && |down| == |order|
    && forall k :: 0 <= k < |order| ==> Broadcast(Left(s, child, order[..k + 1]), egress, order[k], down[k])
  }

  lemma BroadcastsNone(s: Tables, child: Id, egress: map<Id, set<Id>>)
    ensures Broadcasts(s, child, egress, [], [])
  {
  }

  lemma BroadcastsSnoc(
    s: Tables, child: Id, egress: map<Id, set<Id>>, order: seq<Id>, down: seq<seq<Id>>, target: Id, told: seq<Id>)
    requires Broadcasts(s, child, egress, order, down)
    requires Broadcast(Left(s, child, order + [target]), egress, target, told)
    ensures Broadcasts(s, child, egress, order + [target], down + [told])
  {
    hide Broadcast, Left;
    var order', down' := order + [target], down + [told];
    forall k | 0 <= k < |order'| ensures Broadcast(Left(s, child, order'[..k + 1]), egress, order'[k], down'[k]) {
      if k < |order| {
        assert order'[..k + 1] == order[..k + 1];
      } else {
        assert order'[..k + 1] == order';
      }
    }
  }

  /** The tables once the stream to `child` is lost and the routes `gone` are withdrawn. */
  function Left(s: Tables, child: Id, gone: seq<Id>): Tables
  {
    s.(routes := s.routes - {child}, table := s.table - Lost(s, child) - (set id | id in gone))
  }

  class RouteMonitor {
    const parent: Option<Id>
    var routesByStream: map<Id, set<Id>>
    var streamById: map<Id, Id>
    var contexts: set<Id>
    var egressIds: map<Id, set<Id>>   // per stream, every destination a message from it asked for

    constructor (parent: Option<Id>)
      ensures State() == Tables(parent, map[], if parent.Some? then map[parent.value := parent.value] else map[],
                                if parent.Some? then {parent.value} else {})
      ensures egressIds == map[]
    {
      this.parent, egressIds := parent, map[];
      routesByStream := map[];
      streamById := if parent.Some? then map[parent.value := parent.value] else map[];
      contexts := if parent.Some? then {parent.value} else {};
    }

    function State(): Tables
      reads this
    {
      Tables(parent, routesByStream, streamById, contexts)
    }

    /** A message for the parent, if there still is a stream to it. */
    function Upward(m: Msg): (up: seq<Msg>)
      reads this
      ensures up == if HasUplink(State()) then [m] else []
    {
      if parent.Some? && StreamById(State(), parent.value).Some? then [m] else []
    }

    /** The streams on which the loss of `target` is broadcast, in the order the table happens to be iterated. */
    method PropagateDown(target: Id) returns (down: seq<Id>)
      ensures Broadcast(State(), egressIds, target, down)
    {
      down := [];
      var todo := streamById.Keys;
      assert forall e :: EntriesOver(State(), e) - todo == {};
      hide BroadcastBut;
      while todo != {}
        invariant todo <= streamById.Keys
        invariant BroadcastBut(State(), egressIds, target, down, todo)
        decreases todo
      {
        var t :| t in todo;
        var stream := streamById[t];
        BroadcastStep(State(), egressIds, target, down, todo, t);
        if stream in egressIds && target in egressIds[stream] && parent != Some(stream) {
          down := down + [stream];
        }
        todo := todo - {t};
      }
    }

    method NoticeStream(child: Id) returns (up: seq<Msg>)
      modifies this`routesByStream, this`streamById, this`contexts
      ensures State() == Notice(old(State()), child)
      ensures up == if HasUplink(State()) then [Add(child)] else []
    {
      streamById := streamById[child := child];
      contexts := contexts + {child};
      routesByStream := routesByStream[child := {child}];
      up := Upward(Add(child));
    }

    method OnAddRoute(src: Id, target: Id) returns (up: seq<Msg>)
      modifies this`routesByStream, this`streamById, this`contexts
      ensures State() == OnAdd(old(State()), src, target).0
      ensures up == if OnAdd(old(State()), src, target).1 && HasUplink(State()) then [Add(target)] else []
    {
      contexts := contexts + {target};
      var stream, current := StreamById(State(), src), StreamById(State(), target);
      if current.Some? && current != parent {
        return [];
      }
      if stream.None? || stream.value !in routesByStream {
        return [];
      }
      routesByStream := routesByStream[stream.value := routesByStream[stream.value] + {target}];
      streamById := streamById[target := stream.value];
      up := Upward(Add(target));
    }

    method OnDelRoute(src: Id, target: Id) returns (up: seq<Msg>, down: seq<Id>)
      modifies this`routesByStream, this`streamById
      ensures State() == OnDel(old(State()), src, target).0
      ensures up == if OnDel(old(State()), src, target).1 && HasUplink(State()) then [Del(target)] else []
      ensures var registered := StreamById(old(State()), target);
              if registered.Some? && registered == StreamById(old(State()), src)
              then Broadcast(State(), egressIds, target, down) else down == []
    {
      up, down := [], [];
      var registered := StreamById(State(), target);
      if registered.None? {
        return;
      }
      var stream := StreamById(State(), src);
      if registered != stream {
        return;
      }
      if stream.value in routesByStream {
        routesByStream := routesByStream[stream.value := routesByStream[stream.value] - {target}];
      }
      streamById := streamById - {target};
      if stream != parent {
        up := Upward(Del(target));
      }
      down := PropagateDown(target);
    }

    /** Every route over the stream is withdrawn, in the order the set happens to be iterated. */
    method OnStreamDisconnect(child: Id)
      returns (lost: set<Id>, up: seq<Msg>, down: seq<seq<Id>>, ghost order: seq<Id>)
      requires child in routesByStream
      requires ParentApart(State(), child)
      modifies this`routesByStream, this`streamById
      ensures State() == OnDisconnect(old(State()), child) && lost == Lost(old(State()), child)
      ensures Distinct(order) && (set id | id in order) == old(routesByStream)[child]
      ensures up == if HasUplink(State()) then Dels(order) else []
      ensures Broadcasts(old(State()), child, egressIds, order, down)
    {
      hide Dels, Broadcast, Broadcasts, Left;
      ghost var was := State();
      LeftNone(was, child);
      lost := set id | id in contexts && id in streamById && streamById[id] == child;
      streamById := streamById - lost;
      ghost var tell := HasUplink(State());
      var routes := routesByStream[child];
      var todo := routes;
      routesByStream := routesByStream - {child};
      up, down, order := [], [], [];
      BroadcastsNone(was, child, egressIds);
      while todo != {}
        invariant todo <= routes && forall id :: id in order <==> id in routes - todo
        invariant Distinct(order)
        invariant State() == Left(was, child, order)
        invariant tell <==> HasUplink(State())
        invariant up == if tell then Dels(order) else []
        invariant Broadcasts(was, child, egressIds, order, down)
        decreases todo
      {
        var target :| target in todo;
        todo := todo - {target};
        streamById := streamById - {target};
        LeftSnoc(was, child, order, target);
        up := up + Upward(Del(target));
        var told := PropagateDown(target);
        DelsSnoc(order, target);
        BroadcastsSnoc(was, child, egressIds, order, down, target, told);
        DistinctConcat(order, [target]);
        order, down := order + [target], down + [told];
      }
      LeftAll(was, child, order);
    }
  }

  lemma LeftNone(s: Tables, child: Id)
    ensures Left(s, child, []) == s.(routes := s.routes - {child}, table := s.table - Lost(s, child))
  {
    assert (set id: Id | id in []) == {};
  }

  lemma LeftSnoc(s: Tables, child: Id, gone: seq<Id>, id: Id)
    ensures Left(s, child, gone + [id]) == Left(s, child, gone).(table := Left(s, child, gone).table - {id})
  {
    assert (set x | x in gone + [id]) == (set x | x in gone) + {id};
  }

  lemma LeftAll(s: Tables, child: Id, gone: seq<Id>)
    requires child in s.routes && forall id :: id in gone <==> id in s.routes[child]
    ensures (set id | id in gone) == s.routes[child] && Left(s, child, gone) == OnDisconnect(s, child)
  {
    assert (set id | id in gone) == s.routes[child];
  }

  /** The parent is not a route over the stream to `child`. */
  predicate ParentApart(s: Tables, child: Id)
    requires child in s.routes
  {
    s.parent.Some? ==>
      && s.parent.value !in s.routes[child]
      && (s.parent.value in s.table ==> s.table[s.parent.value] != child)
  }

  lemma DelsSnoc(ids: seq<Id>, id: Id)
    ensures Dels(ids + [id]) == Dels(ids) + [Del(id)]
  {
  }

  function Dels(ids: seq<Id>): (r: seq<Msg>)
    ensures |r| == |ids| && forall k :: 0 <= k < |r| ==> r[k] == Del(ids[k])
  {
    seq(|ids|, k requires 0 <= k < |ids| => Del(ids[k]))
  }

  // ---------------------------------------------------------------- the tree

  /**
   Ids are never reused and a context attaches to one parent once, so who attaches to whom in a run
   is a function of the id.
   */
  datatype Tree = Tree(up: Id -> Id, depth: Id -> nat)

  ghost predicate IsTree(tr: Tree)
  {
    forall d: Id {:trigger tr.up(d)} :: d != MASTER ==> tr.depth(tr.up(d)) < tr.depth(d)
  }

  /** `t` is `d` or attached somewhere below it. */
  ghost predicate Below(tr: Tree, t: Id, d: Id)
    requires IsTree(tr)
    decreases tr.depth(t)
  {
    t == d || (t != MASTER && Below(tr, tr.up(t), d))
  }

  lemma {:induction false} BelowUp(tr: Tree, t: Id, d: Id)
    requires IsTree(tr) && Below(tr, t, d) && d != MASTER
    ensures Below(tr, t, tr.up(d))
    decreases tr.depth(t)
  {
    if t != d {
      BelowUp(tr, tr.up(t), d);
    } else {
      assert Below(tr, tr.up(t), tr.up(d));
    }
  }

  lemma {:induction false} BelowDepth(tr: Tree, t: Id, d: Id)
    requires IsTree(tr) && Below(tr, t, d)
    ensures t == d || tr.depth(d) < tr.depth(t)
    decreases tr.depth(t)
  {
    if t != d {
      BelowDepth(tr, tr.up(t), d);
    }
  }

  /** Subtrees of different children of one context are disjoint. */
  lemma {:induction false} SiblingsDisjoint(tr: Tree, t: Id, d: Id, e: Id)
    requires IsTree(tr) && d != MASTER && e != MASTER && tr.up(d) == tr.up(e)
    requires Below(tr, t, d) && Below(tr, t, e)
    ensures d == e
    decreases tr.depth(t)
  {
    if t != d && t != e {
      SiblingsDisjoint(tr, tr.up(t), d, e);
    } else if t == d && d != e {
      BelowDepth(tr, tr.up(d), e);
    } else if t == e && d != e {
      BelowDepth(tr, tr.up(e), d);
    }
  }

  // ---------------------------------------------------------------- link contents

  function Effect(s: set<Id>, m: Msg): set<Id>
  {
    match m
    case Add(t) => s + {t}
    case Del(t) => s - {t}
    case Reply(_, _) => s
  }

  /** What a parent's route set for a stream will be once it has processed what is queued on it. */
  function Replay(q: seq<Msg>, s: set<Id>): set<Id>
  {
    if q == [] then s else Effect(Replay(q[..|q| - 1], s), q[|q| - 1])
  }

  /** Nothing queued adds a route that is there or deletes one that is not. */
  predicate Fitting(q: seq<Msg>, s: set<Id>)
  {
    q == [] || (Fitting(q[..|q| - 1], s) && Fits(Replay(q[..|q| - 1], s), q[|q| - 1]))
  }

  predicate Fits(s: set<Id>, m: Msg)
  {
    match m
    case Add(t) => t !in s
    case Del(t) => t in s
    case Reply(_, _) => true
  }

  lemma ReplaySnoc(q: seq<Msg>, m: Msg, s: set<Id>)
    ensures Replay(q + [m], s) == Effect(Replay(q, s), m)
    ensures Fitting(q + [m], s) <==> Fitting(q, s) && Fits(Replay(q, s), m)
  {
    assert (q + [m])[..|q + [m]| - 1] == q;
  }

  lemma {:induction false} ReplayPop(q: seq<Msg>, s: set<Id>)
    requires q != [] && Fitting(q, s)
    ensures Fits(s, q[0])
    ensures Fitting(q[1..], Effect(s, q[0])) && Replay(q[1..], Effect(s, q[0])) == Replay(q, s)
    decreases |q|
  {
    var init := q[..|q| - 1];
    if init == [] {
      assert q[1..] == [] && Replay(init, s) == s;
    } else {
      ReplayPop(init, s);
      assert q[1..] == init[1..] + [q[|q| - 1]];
      ReplaySnoc(init[1..], q[|q| - 1], Effect(s, q[0]));
    }
  }

  lemma {:induction false} ReplayDels(q: seq<Msg>, ids: seq<Id>, s: set<Id>)
    requires Fitting(q, s) && Distinct(ids) && (forall t :: t in ids ==> t in Replay(q, s))
    ensures Fitting(q + Dels(ids), s)
    ensures forall t :: t in Replay(q + Dels(ids), s) <==> t in Replay(q, s) && t !in ids
    decreases |ids|
  {
    hide Replay, Fitting;
    if ids == [] {
      assert q + Dels(ids) == q;
    } else {
      var init, last := ids[..|ids| - 1], ids[|ids| - 1];
      assert ids == init + [last] && last !in init;
      ReplayDels(q, init, s);
      assert q + Dels(ids) == q + Dels(init) + [Del(last)];
      ReplaySnoc(q + Dels(init), Del(last), s);
    }
  }
}
