/**
 The whole tree of contexts: every run of connections, disconnections and message deliveries keeps
 what the contexts on both ends of a link know in step with what is queued between them.
 */
module RouteNetwork {
  import opened Seqs
  import opened Routes

  /** A context, with a record of the ids it was ever told of (`seen`) or lost again (`gone`). */
  datatype Node = Node(tables: Tables, seen: set<Id>, gone: set<Id>)

  /** `up[d]` is what is queued from `d` to its parent, present while the parent has the stream. */
  datatype Net = Net(nodes: map<Id, Node>, up: map<Id, seq<Msg>>)

  datatype Event =
    | Connect(d: Id)                         // `d` starts and attaches to its parent
    | Process(d: Id)                         // the parent of `d` handles the oldest message from it
    | Drop(d: Id, order: seq<Id>)            // the parent of `d` notices the disconnection
    | LoseParent(d: Id)                      // `d` notices the disconnection
    | Announce(c: Id, t: Id, dst: Id)        // `c` replies to a proxied connect of `t`
    | HearDel(n: Id, t: Id)                  // `n` handles a DEL_ROUTE broadcast by its parent

  function Send(net: Net, n: Id, ms: seq<Msg>): Net
    requires n in net.nodes
  {
    if n in net.up && HasUplink(net.nodes[n].tables) then net.(up := net.up[n := net.up[n] + ms]) else net
  }

  function SetTables(net: Net, n: Id, s: Tables, seen: set<Id>, gone: set<Id>): Net
    requires n in net.nodes
  {
    net.(nodes := net.nodes[n := Node(s, net.nodes[n].seen + seen, net.nodes[n].gone + gone)])
  }

  predicate Enabled(tr: Tree, net: Net, e: Event)
  {
    match e
    case Connect(d) => d != MASTER && d !in net.nodes && tr.up(d) in net.nodes
    case Process(d) => d in net.up && net.up[d] != [] && tr.up(d) in net.nodes
    case Drop(d, order) =>
      && d in net.up && tr.up(d) in net.nodes && d in net.nodes[tr.up(d)].tables.routes
      && Distinct(order) && (set t | t in order) == net.nodes[tr.up(d)].tables.routes[d]
    case LoseParent(d) => d in net.nodes && HasUplink(net.nodes[d].tables)
    case Announce(c, t, _) => c in net.nodes && t in net.nodes[c].seen
    case HearDel(n, t) => n in net.nodes && HasUplink(net.nodes[n].tables) && t != tr.up(n)
  }

  function Apply(tr: Tree, net: Net, e: Event): Net
    requires Enabled(tr, net, e)
  {
    match e
    case Connect(d) =>
      var c := tr.up(d);
      var started := Net(net.nodes[d := Node(Tables(Some(c), map[], map[c := c], {c}), {}, {})], net.up[d := []]);
      Send(SetTables(started, c, Notice(net.nodes[c].tables, d), {d}, {}), c, [Add(d)])
    case Process(d) =>
      Handle(net.(up := net.up[d := net.up[d][1..]]), tr.up(d), d, net.up[d][0])
    case Drop(d, order) =>
      var c := tr.up(d);
      var s := net.nodes[c].tables;
      Send(SetTables(net.(up := net.up - {d}), c, OnDisconnect(s, d), {}, s.routes[d]), c, Dels(order))
    case LoseParent(d) =>
      var s := net.nodes[d].tables;
      SetTables(net, d, s.(table := s.table - {s.parent.value}), {}, {})
    case Announce(c, t, dst) => Send(net, c, [Reply(t, dst)])
    case HearDel(n, t) =>
      SetTables(net, n, OnDel(net.nodes[n].tables, tr.up(n), t).0, {}, {})
  }

  /** `c` handles a message that its child `d` sent. */
  function Handle(net: Net, c: Id, d: Id, m: Msg): Net
    requires c in net.nodes
  {
    match m
    case Add(t) =>
      var (s, pass) := OnAdd(net.nodes[c].tables, d, t);
      var net' := SetTables(net, c, s, if pass then {t} else {}, {});
      if pass then Send(net', c, [m]) else net'
    case Del(t) =>
      var (s, pass) := OnDel(net.nodes[c].tables, d, t);
      var net' := SetTables(net, c, s, {}, if pass then {t} else {});
      if pass then Send(net', c, [m]) else net'
    case Reply(_, dst) =>
      if dst == c then net else Send(net, c, [m])
  }

  // ---------------------------------------------------------------- invariants

  /** The table and the route sets of one context agree, and name only contexts below its children. */
  ghost predicate NodeOk(tr: Tree, n: Id, node: Node)
    requires IsTree(tr)
  {
    var s := node.tables;
    && s.parent == (if n == MASTER then None else Some(tr.up(n)))
    && (forall d :: d in s.routes ==> d != MASTER && tr.up(d) == n && d in s.routes[d])
    && (forall d, t :: d in s.routes && t in s.routes[d] ==> Below(tr, t, d) && t in s.table && s.table[t] == d)
    && (forall t :: t in s.table ==>
          || (Some(t) == s.parent && s.table[t] == t)
          || (s.table[t] in s.routes && t in s.routes[s.table[t]]))
    && (forall t :: t in node.seen ==> Exports(s, t) || t in node.gone)
  }

  /** The contexts a node can reach through its children. */
  predicate Exports(s: Tables, t: Id)
  {
    t in s.table && Some(t) != s.parent
  }

  predicate AddBefore(q: seq<Msg>, i: nat, t: Id)
    requires i <= |q|
  {
    Add(t) in q[..i]
  }

  /** The link from `d` to its parent: `q` is queued, `r` the parent's route set for it. */
  ghost predicate LinkOk(tr: Tree, d: Id, q: seq<Msg>, r: set<Id>, node: Node, parentSeen: set<Id>)
    requires IsTree(tr)
  {
    && Fitting(q, r)
    && (forall m :: m in q && !m.Reply? ==> Below(tr, m.target, d) && m.target != d)
    && (HasUplink(node.tables) ==> forall t :: t in Replay(q, r) <==> t == d || Exports(node.tables, t))
    && (HasUplink(node.tables) ==> forall t :: t in node.seen ==> Add(t) in q || t in parentSeen)
    && (forall i :: 0 <= i < |q| && q[i].Reply? ==> AddBefore(q, i, q[i].target) || q[i].target in parentSeen)
  }

  ghost predicate Domains(tr: Tree, net: Net)
  {
    && MASTER in net.nodes
    && (forall n {:trigger tr.up(n) in net.nodes} :: n in net.nodes && n != MASTER ==> tr.up(n) in net.nodes)
    && (forall d :: d in net.up ==>
          d != MASTER && d in net.nodes && tr.up(d) in net.nodes && d in net.nodes[tr.up(d)].tables.routes)
    && (forall n, d :: n in net.nodes && d in net.nodes[n].tables.routes ==> d in net.up)
  }

  ghost predicate LinkAt(tr: Tree, net: Net, d: Id)
    requires IsTree(tr)
  {
    && d in net.up && d in net.nodes && tr.up(d) in net.nodes && d in net.nodes[tr.up(d)].tables.routes
    && LinkOk(tr, d, net.up[d], net.nodes[tr.up(d)].tables.routes[d], net.nodes[d], net.nodes[tr.up(d)].seen)
  }

  ghost predicate Inv(tr: Tree, net: Net)
    requires IsTree(tr)
  {
    && Domains(tr, net)
    && (forall n {:trigger NodeOk(tr, n, net.nodes[n])} :: n in net.nodes ==> NodeOk(tr, n, net.nodes[n]))
    && (forall d {:trigger LinkAt(tr, net, d)} :: d in net.up ==> LinkAt(tr, net, d))
  }

  // ---------------------------------------------------------------- one link

  lemma LinkSends(tr: Tree, d: Id, q: seq<Msg>, r: set<Id>, node: Node, node': Node, parentSeen: set<Id>, m: Msg)
    requires IsTree(tr) && LinkOk(tr, d, q, r, node, parentSeen)
    requires HasUplink(node.tables)
    requires Fits(Replay(q, r), m) && (!m.Reply? ==> Below(tr, m.target, d) && m.target != d)
    requires forall t :: (t == d || Exports(node'.tables, t)) <==>
                         t in Effect(Replay(q, r), m)
    requires forall t :: t in node'.seen ==> t in node.seen || m == Add(t)
    requires m.Reply? ==> m.target in node.seen
    ensures LinkOk(tr, d, q + [m], r, node', parentSeen)
  {
    ReplaySnoc(q, m, r);
    forall t | t in node'.seen ensures Add(t) in q + [m] || t in parentSeen {
      if t in node.seen && t !in parentSeen {
        assert Add(t) in q;
      }
    }
    forall i | 0 <= i < |q + [m]| && (q + [m])[i].Reply?
      ensures AddBefore(q + [m], i, (q + [m])[i].target) || (q + [m])[i].target in parentSeen
    {
      assert (q + [m])[..i] == q[..i];
      if i < |q| {
        assert AddBefore(q, i, q[i].target) || q[i].target in parentSeen;
      } else {
        assert q[..i] == q;
      }
    }
  }

  lemma LinkSendsDels(
    tr: Tree, d: Id, q: seq<Msg>, r: set<Id>, node: Node, node': Node, parentSeen: set<Id>, order: seq<Id>)
    requires IsTree(tr) && LinkOk(tr, d, q, r, node, parentSeen)
    requires HasUplink(node.tables) && Distinct(order)
    requires forall t :: t in order ==> Below(tr, t, d) && t != d && t in Replay(q, r)
    requires forall t :: (t == d || Exports(node'.tables, t)) <==> t in Replay(q, r) && t !in order
    requires node'.seen == node.seen
    ensures LinkOk(tr, d, q + Dels(order), r, node', parentSeen)
  {
    hide Fitting, Replay, Exports, Below;
    var q' := q + Dels(order);
    ReplayDels(q, order, r);
    forall m | m in q' && !m.Reply? ensures Below(tr, m.target, d) && m.target != d {
      if m !in q {
        var k :| 0 <= k < |Dels(order)| && Dels(order)[k] == m;
        assert order[k] in order;
      }
    }
    forall i | 0 <= i < |q'| && q'[i].Reply?
      ensures AddBefore(q', i, q'[i].target) || q'[i].target in parentSeen
    {
      assert i < |q| && q'[..i] == q[..i];
      assert AddBefore(q, i, q[i].target) || q[i].target in parentSeen;
    }
  }

  /** The parent takes the oldest message and applies its effect to the route set. */
  lemma LinkPops(tr: Tree, d: Id, q: seq<Msg>, r: set<Id>, node: Node, parentSeen: set<Id>)
    requires IsTree(tr) && LinkOk(tr, d, q, r, node, parentSeen) && q != []
    ensures Fits(r, q[0])
    ensures var seen' := if q[0].Add? then parentSeen + {q[0].target} else parentSeen;
            LinkOk(tr, d, q[1..], Effect(r, q[0]), node, seen')
    ensures if q[0].Reply? then q[0].target in parentSeen else Below(tr, q[0].target, d) && q[0].target != d
  {
    ReplayPop(q, r);
    var seen', q' := if q[0].Add? then parentSeen + {q[0].target} else parentSeen, q[1..];
    hide Fitting, Replay;
    assert q == [q[0]] + q';
    if q[0].Reply? {
      assert q[..0] == [] && !AddBefore(q, 0, q[0].target);
    }
    forall i | 0 <= i < |q'| && q'[i].Reply?
      ensures AddBefore(q', i, q'[i].target) || q'[i].target in seen'
    {
      var t := q'[i].target;
      assert q[i + 1] == q'[i];
      assert AddBefore(q, i + 1, t) || t in parentSeen;
      assert q[..i + 1] == [q[0]] + q'[..i];
    }
  }

  /** The parent learns more, or the child loses its uplink: the link is as good as before. */
  lemma LinkWeakens(
    tr: Tree, d: Id, q: seq<Msg>, r: set<Id>, node: Node, node': Node, seen: set<Id>, seen': set<Id>)
    requires IsTree(tr) && LinkOk(tr, d, q, r, node, seen) && seen <= seen'
    requires node' == node || !HasUplink(node'.tables)
    ensures LinkOk(tr, d, q, r, node', seen')
  {
    hide Fitting, Replay, Exports, Below;
  }

  // ---------------------------------------------------------------- one context

  /** Nothing below a child of `n` is in its table yet, unless it came from that child. */
  lemma NotInTable(tr: Tree, n: Id, node: Node, d: Id, t: Id)
    requires IsTree(tr) && NodeOk(tr, n, node) && d in node.tables.routes
    requires Below(tr, t, d) && t !in node.tables.routes[d]
    ensures t !in node.tables.table && t != n && Some(t) != node.tables.parent
  {
    BelowDepth(tr, t, d);
    if t in node.tables.table && Some(t) != node.tables.parent {
      SiblingsDisjoint(tr, t, d, node.tables.table[t]);
    }
  }

  lemma ParentEntry(tr: Tree, n: Id, node: Node)
    requires IsTree(tr) && NodeOk(tr, n, node) && HasUplink(node.tables)
    ensures n != MASTER && node.tables.parent.value == node.tables.table[node.tables.parent.value] == tr.up(n)
  {
    var p := node.tables.parent.value;
    if node.tables.table[p] in node.tables.routes && p in node.tables.routes[node.tables.table[p]] {
      BelowDepth(tr, p, node.tables.table[p]);
    }
  }

  lemma AddShape(tr: Tree, n: Id, node: Node, d: Id, t: Id)
    requires IsTree(tr) && NodeOk(tr, n, node) && d in node.tables.routes
    requires Below(tr, t, d) && t !in node.tables.routes[d]
    ensures var s, (s', pass) := node.tables, OnAdd(node.tables, d, t);
            && pass && s'.routes == s.routes[d := s.routes[d] + {t}] && s'.table == s.table[t := d]
            && s'.parent == s.parent
    ensures t !in node.tables.table && t != n && Some(t) != node.tables.parent && Below(tr, t, n)
  {
    NotInTable(tr, n, node, d, t);
    BelowUp(tr, t, d);
    assert d in node.tables.table && node.tables.table[d] == d;
    if HasUplink(node.tables) {
      ParentEntry(tr, n, node);
    }
  }

  lemma NodeAdds(tr: Tree, n: Id, node: Node, d: Id, t: Id)
    requires IsTree(tr) && NodeOk(tr, n, node) && d in node.tables.routes
    requires Below(tr, t, d) && t !in node.tables.routes[d]
    ensures var s, (s', pass) := node.tables, OnAdd(node.tables, d, t);
            && pass && s'.routes == s.routes[d := s.routes[d] + {t}] && s'.table == s.table[t := d]
            && s'.parent == s.parent
            && NodeOk(tr, n, Node(s', node.seen + {t}, node.gone))
    ensures t !in node.tables.table && t != n && Some(t) != node.tables.parent && Below(tr, t, n)
  {
    hide NodeOk, OnAdd, Below;
    AddShape(tr, n, node, d, t);
    RouteAdded(tr, n, node, Node(OnAdd(node.tables, d, t).0, node.seen + {t}, node.gone), d, t);
  }

  lemma RouteAdded(tr: Tree, n: Id, node: Node, node': Node, d: Id, t: Id)
    requires IsTree(tr) && NodeOk(tr, n, node) && d in node.tables.routes
    requires Below(tr, t, d) && t !in node.tables.table && Some(t) != node.tables.parent
    requires var s, s' := node.tables, node'.tables;
             s'.routes == s.routes[d := s.routes[d] + {t}] && s'.table == s.table[t := d] && s'.parent == s.parent
    requires node'.seen == node.seen + {t} && node'.gone == node.gone
    ensures NodeOk(tr, n, node')
  {
    hide Below;
    var s, s' := node.tables, node'.tables;
    forall e, x | e in s'.routes && x in s'.routes[e]
      ensures Below(tr, x, e) && x in s'.table && s'.table[x] == e
    {
      assert (x == t && e == d) || (x in s.routes[e] && s.table[x] == e);
    }
  }

  lemma DelShape(tr: Tree, n: Id, node: Node, d: Id, t: Id)
    requires IsTree(tr) && NodeOk(tr, n, node) && d in node.tables.routes
    requires t in node.tables.routes[d] && t != d
    ensures var s, (s', pass) := node.tables, OnDel(node.tables, d, t);
            && pass && s'.routes == s.routes[d := s.routes[d] - {t}] && s'.table == s.table - {t}
            && s'.parent == s.parent
    ensures t in node.tables.table && t != n && Some(t) != node.tables.parent && Below(tr, t, n)
  {
    var s := node.tables;
    assert Below(tr, t, d) && t in s.table && s.table[t] == d;
    assert d in s.table && s.table[d] == d;
    BelowDepth(tr, t, d);
    BelowUp(tr, t, d);
  }

  lemma NodeDels(tr: Tree, n: Id, node: Node, d: Id, t: Id)
    requires IsTree(tr) && NodeOk(tr, n, node) && d in node.tables.routes
    requires t in node.tables.routes[d] && t != d
    ensures var s, (s', pass) := node.tables, OnDel(node.tables, d, t);
            && pass && s'.routes == s.routes[d := s.routes[d] - {t}] && s'.table == s.table - {t}
            && s'.parent == s.parent
            && NodeOk(tr, n, Node(s', node.seen, node.gone + {t}))
    ensures t in node.tables.table && t != n && Some(t) != node.tables.parent && Below(tr, t, n)
  {
    DelShape(tr, n, node, d, t);
    hide OnDel, Below;
    var s, s' := node.tables, OnDel(node.tables, d, t).0;
    forall e, x | e in s'.routes && x in s'.routes[e]
      ensures Below(tr, x, e) && x in s'.table && s'.table[x] == e
    {
      assert x in s.routes[e] && s.table[x] == e && (s.table[t] == d);
    }
  }

  lemma NodeDisconnects(tr: Tree, n: Id, node: Node, d: Id)
    requires IsTree(tr) && NodeOk(tr, n, node) && d in node.tables.routes
    ensures ParentApart(node.tables, d)
    ensures var s, s' := node.tables, OnDisconnect(node.tables, d);
            && s'.routes == s.routes - {d} && s'.table == s.table - s.routes[d] && s'.parent == s.parent
            && (forall t :: t in s'.table ==> s'.table[t] != d)
            && NodeOk(tr, n, Node(s', node.seen, node.gone + s.routes[d]))
    ensures forall t :: t in node.tables.routes[d] ==>
      t in node.tables.table && t != n && Some(t) != node.tables.parent && Below(tr, t, n)
  {
    var s, s' := node.tables, OnDisconnect(node.tables, d);
    assert tr.up(d) == n && d != MASTER;
    forall t | t in s.routes[d]
      ensures t in s.table && t != n && Some(t) != s.parent && Below(tr, t, n)
    {
      assert Below(tr, t, d) && s.table[t] == d;
      BelowDepth(tr, t, d);
      BelowUp(tr, t, d);
    }
    if n != MASTER && tr.up(n) == d {
      BelowDepth(tr, d, d);
    }
    hide Below;
    forall t | t in s.table && s.table[t] == d ensures t in s.routes[d] {
    }
    assert s'.table == s.table - s.routes[d];
  }

  lemma NodeNotices(tr: Tree, n: Id, node: Node, d: Id)
    requires IsTree(tr) && NodeOk(tr, n, node) && d !in node.tables.table && d != MASTER && tr.up(d) == n
    ensures NodeOk(tr, n, Node(Notice(node.tables, d), node.seen + {d}, node.gone))
    ensures d != n && Some(d) != node.tables.parent && Below(tr, d, n)
  {
    assert Below(tr, tr.up(d), n) && Below(tr, d, d) && Below(tr, d, n);
    BelowDepth(tr, d, d);
    assert d != n && (n != MASTER ==> d != tr.up(n));
    hide Below;
    var s' := Notice(node.tables, d);
    forall t | t in s'.table
      ensures (Some(t) == s'.parent && s'.table[t] == t) || (s'.table[t] in s'.routes && t in s'.routes[s'.table[t]])
    {
      if t != d {
        assert t in node.tables.table;
      }
    }
  }

  // ---------------------------------------------------------------- steps

  /**
   A step in which only context `c` and the link of its child `d` change keeps the invariant if it
   keeps it for those.
   */
  lemma StepOf(tr: Tree, net: Net, net': Net, c: Id, d: Id)
    requires IsTree(tr) && Inv(tr, net) && Domains(tr, net')
    requires c in net.nodes && c in net'.nodes && net.nodes[c].seen <= net'.nodes[c].seen
    requires forall n :: n in net'.nodes && n != c && n != d ==> n in net.nodes && net'.nodes[n] == net.nodes[n]
    requires forall e :: e in net'.up && e != d ==> e in net.up && (e != c ==> net'.up[e] == net.up[e])
    requires forall e :: e != d && e in net'.nodes[c].tables.routes ==>
      e in net.nodes[c].tables.routes && net'.nodes[c].tables.routes[e] == net.nodes[c].tables.routes[e]
    requires d != c && d in net.nodes ==> d in net'.nodes && net'.nodes[d] == net.nodes[d]
    requires d !in net.nodes && d in net'.nodes ==> net'.nodes[d].tables.routes == map[]
    requires NodeOk(tr, c, net'.nodes[c]) && (d in net'.nodes ==> NodeOk(tr, d, net'.nodes[d]))
    requires c in net'.up ==> LinkAt(tr, net', c)
    requires d in net'.up ==> LinkAt(tr, net', d)
    ensures Inv(tr, net')
  {
    hide Fitting, Replay, Exports, Below, LinkOk, NodeOk;
    forall e | e in net'.up && e != c && e != d ensures LinkAt(tr, net', e) {
      assert LinkAt(tr, net, e);
      assert e in net'.nodes[tr.up(e)].tables.routes;
      LinkWeakens(tr, e, net.up[e], net.nodes[tr.up(e)].tables.routes[e], net.nodes[e], net.nodes[e],
                  net.nodes[tr.up(e)].seen, net'.nodes[tr.up(e)].seen);
    }
  }

  /** What a context sends after changing its table in the same way keeps the link to its parent. */
  lemma UplinkKeeps(tr: Tree, net: Net, c: Id, node': Node, m: Msg)
    requires IsTree(tr) && Inv(tr, net) && c in net.up
    requires HasUplink(node'.tables) <==> HasUplink(net.nodes[c].tables)
    requires !m.Reply? && Below(tr, m.target, c) && m.target != c
    requires m.Add? <==> !Exports(net.nodes[c].tables, m.target)
    requires forall t :: Exports(node'.tables, t) <==>
      (if t == m.target then m.Add? else Exports(net.nodes[c].tables, t))
    requires node'.seen == net.nodes[c].seen + (if m.Add? then {m.target} else {})
    ensures var q := if HasUplink(node'.tables) then net.up[c] + [m] else net.up[c];
            LinkOk(tr, c, q, net.nodes[tr.up(c)].tables.routes[c], node', net.nodes[tr.up(c)].seen)
  {
    hide Fitting, Replay, Exports, Below, NodeOk, Inv;
    InvAt(tr, net, c);
    var q, r, seen := net.up[c], net.nodes[tr.up(c)].tables.routes[c], net.nodes[tr.up(c)].seen;
    if HasUplink(node'.tables) {
      LinkSends(tr, c, q, r, net.nodes[c], node', seen, m);
    } else {
      LinkWeakens(tr, c, q, r, net.nodes[c], node', seen, seen);
    }
  }

  lemma InvAt(tr: Tree, net: Net, d: Id)
    requires IsTree(tr) && Inv(tr, net) && d in net.up
    ensures d != MASTER && d in net.nodes && tr.up(d) in net.nodes && d in net.nodes[tr.up(d)].tables.routes
    ensures NodeOk(tr, d, net.nodes[d]) && NodeOk(tr, tr.up(d), net.nodes[tr.up(d)]) && LinkAt(tr, net, d)
  {
  }

  /** What the handling of an update does: the tables, and the message passed on. */
  ghost predicate Processed(tr: Tree, net: Net, net': Net, d: Id)
    requires IsTree(tr)
  {
    var c := tr.up(d);
    && d in net.up && net.up[d] != [] && c in net.nodes && c in net'.nodes && d in net.nodes[c].tables.routes
    && (var m, s, s' := net.up[d][0], net.nodes[c].tables, net'.nodes[c].tables;
        && NodeOk(tr, c, net'.nodes[c])
        && s'.parent == s.parent && s'.routes == s.routes[d := Effect(s.routes[d], m)]
        && (forall t :: t in s'.table <==> (if t == m.target then m.Add? else t in s.table))
        && net'.nodes == net.nodes[c := net'.nodes[c]]
        && net'.nodes[c].seen == net.nodes[c].seen + (if m.Add? then {m.target} else {})
        && net'.up == (var up' := net.up[d := net.up[d][1..]];
                       if c in net.up && HasUplink(s') then up'[c := net.up[c] + [m]] else up')
        && m.target != c && Some(m.target) != s.parent && Below(tr, m.target, c)
        && (m.Add? <==> m.target !in s.table))
  }

  /** An update that fits, handled in a consistent context. */
  lemma HandleFits(tr: Tree, net: Net, d: Id)
    requires IsTree(tr) && Enabled(tr, net, Process(d)) && tr.up(d) != d && d in net.nodes[tr.up(d)].tables.routes
    requires NodeOk(tr, tr.up(d), net.nodes[tr.up(d)])
    requires var m, r := net.up[d][0], net.nodes[tr.up(d)].tables.routes[d];
             !m.Reply? && Fits(r, m) && Below(tr, m.target, d) && m.target != d
    ensures Processed(tr, net, Apply(tr, net, Process(d)), d)
  {
    hide Below, NodeOk, OnAdd, OnDel;
    var c, m := tr.up(d), net.up[d][0];
    var node := net.nodes[c];
    assert node.seen + {} == node.seen && node.gone + {} == node.gone;
    if m.Add? {
      NodeAdds(tr, c, node, d, m.target);
    } else {
      NodeDels(tr, c, node, d, m.target);
    }
  }

  lemma ProcessKeepsNode(tr: Tree, net: Net, d: Id)
    requires IsTree(tr) && Inv(tr, net) && Enabled(tr, net, Process(d)) && !net.up[d][0].Reply?
    ensures Processed(tr, net, Apply(tr, net, Process(d)), d)
  {
    hide Fitting, Replay, Below, LinkOk, NodeOk, Apply, Processed;
    var c := tr.up(d);
    assert LinkAt(tr, net, d) && NodeOk(tr, c, net.nodes[c]);
    LinkPops(tr, d, net.up[d], net.nodes[c].tables.routes[d], net.nodes[d], net.nodes[c].seen);
    UpDiffers(tr, d);
    HandleFits(tr, net, d);
  }

  lemma UpDiffers(tr: Tree, d: Id)
    requires IsTree(tr) && d != MASTER
    ensures tr.up(d) != d
  {
  }

  lemma ProcessKeepsDomains(tr: Tree, net: Net, d: Id)
    requires IsTree(tr) && Inv(tr, net) && Enabled(tr, net, Process(d)) && !net.up[d][0].Reply?
    ensures Domains(tr, Apply(tr, net, Process(d)))
  {
    hide Fitting, Replay, Below, LinkOk, NodeOk, Apply, LinkAt;
    ProcessKeepsNode(tr, net, d);
  }

  lemma ProcessKeepsLink(tr: Tree, net: Net, d: Id)
    requires IsTree(tr) && Inv(tr, net) && Enabled(tr, net, Process(d)) && !net.up[d][0].Reply?
    ensures LinkAt(tr, Apply(tr, net, Process(d)), d)
  {
    hide Fitting, Replay, Below, LinkOk, NodeOk, Apply;
    var c := tr.up(d);
    var node := net.nodes[c];
    ProcessKeepsNode(tr, net, d);
    UpDiffers(tr, d);
    assert LinkAt(tr, net, d);
    LinkPops(tr, d, net.up[d], node.tables.routes[d], net.nodes[d], node.seen);
    assert node.seen + {} == node.seen;
  }

  lemma ProcessKeepsUplink(tr: Tree, net: Net, d: Id)
    requires IsTree(tr) && Inv(tr, net) && Enabled(tr, net, Process(d)) && !net.up[d][0].Reply?
    requires tr.up(d) in net.up
    ensures LinkAt(tr, Apply(tr, net, Process(d)), tr.up(d))
  {
    hide Fitting, Replay, Below, LinkOk, NodeOk, Apply;
    var net', c, m := Apply(tr, net, Process(d)), tr.up(d), net.up[d][0];
    ProcessKeepsNode(tr, net, d);
    UplinkKeeps(tr, net, c, net'.nodes[c], m);
    UpDiffers(tr, d);
    UpDiffers(tr, c);
  }

  lemma ProcessKeeps(tr: Tree, net: Net, d: Id)
    requires IsTree(tr) && Inv(tr, net) && Enabled(tr, net, Process(d)) && !net.up[d][0].Reply?
    ensures Inv(tr, Apply(tr, net, Process(d)))
  {
    hide Fitting, Replay, Below, LinkOk, NodeOk, Apply, LinkAt, Domains;
    var net', c := Apply(tr, net, Process(d)), tr.up(d);
    ProcessKeepsNode(tr, net, d);
    ProcessKeepsDomains(tr, net, d);
    ProcessKeepsLink(tr, net, d);
    InvAt(tr, net, d);
    UpDiffers(tr, d);
    if c in net.up {
      ProcessKeepsUplink(tr, net, d);
    }
    StepOf(tr, net, net', c, d);
  }

  /** Queueing a reply about `t` behind what `c` already sent keeps its link to the parent. */
  lemma UplinkReplies(tr: Tree, net: Net, c: Id, m: Msg)
    requires IsTree(tr) && Inv(tr, net) && c in net.up && m.Reply? && m.target in net.nodes[c].seen
    ensures LinkAt(tr, Send(net, c, [m]), c)
  {
    hide Fitting, Replay, Below, NodeOk, AddBefore, Exports;
    InvAt(tr, net, c);
    UpDiffers(tr, c);
    if HasUplink(net.nodes[c].tables) {
      LinkSends(tr, c, net.up[c], net.nodes[tr.up(c)].tables.routes[c], net.nodes[c], net.nodes[c],
                net.nodes[tr.up(c)].seen, m);
    }
  }

  lemma SendKeepsDomains(tr: Tree, net: Net, c: Id, ms: seq<Msg>)
    requires IsTree(tr) && Domains(tr, net) && c in net.nodes
    ensures Domains(tr, Send(net, c, ms))
  {
  }

  lemma AnnounceKeeps(tr: Tree, net: Net, c: Id, t: Id, dst: Id)
    requires IsTree(tr) && Inv(tr, net) && Enabled(tr, net, Announce(c, t, dst))
    ensures Inv(tr, Apply(tr, net, Announce(c, t, dst)))
  {
    hide Fitting, Replay, Below, LinkOk, NodeOk, LinkAt;
    SendKeepsDomains(tr, net, c, [Reply(t, dst)]);
    if c in net.up {
      UplinkReplies(tr, net, c, Reply(t, dst));
    }
    StepOf(tr, net, Send(net, c, [Reply(t, dst)]), c, c);
  }

  /** Taking a reply off a link changes no table. */
  lemma PopReplyKeeps(tr: Tree, net: Net, d: Id)
    requires IsTree(tr) && Inv(tr, net) && Enabled(tr, net, Process(d)) && net.up[d][0].Reply?
    ensures Inv(tr, net.(up := net.up[d := net.up[d][1..]]))
    ensures net.up[d][0].target in net.nodes[tr.up(d)].seen
  {
    hide Fitting, Replay, Below, LinkOk, NodeOk, Apply;
    var net1, c := net.(up := net.up[d := net.up[d][1..]]), tr.up(d);
    InvAt(tr, net, d);
    UpDiffers(tr, d);
    LinkPops(tr, d, net.up[d], net.nodes[c].tables.routes[d], net.nodes[d], net.nodes[c].seen);
    forall e | e in net1.up && e != d ensures LinkAt(tr, net1, e) {
      assert LinkAt(tr, net, e);
    }
  }

  lemma ReplyKeeps(tr: Tree, net: Net, d: Id)
    requires IsTree(tr) && Inv(tr, net) && Enabled(tr, net, Process(d)) && net.up[d][0].Reply?
    ensures Inv(tr, Apply(tr, net, Process(d)))
  {
    hide Inv;
    var m := net.up[d][0];
    var net1, c := net.(up := net.up[d := net.up[d][1..]]), tr.up(d);
    PopReplyKeeps(tr, net, d);
    if m.dst != c {
      assert Apply(tr, net, Process(d)) == Apply(tr, net1, Announce(c, m.target, m.dst));
      AnnounceKeeps(tr, net1, c, m.target, m.dst);
    }
  }

  lemma DropShape(tr: Tree, net: Net, d: Id, order: seq<Id>)
    requires IsTree(tr) && Inv(tr, net) && Enabled(tr, net, Drop(d, order))
    ensures var net', c := Apply(tr, net, Drop(d, order)), tr.up(d);
            var s, s' := net.nodes[c].tables, net'.nodes[c].tables;
            && NodeOk(tr, c, net'.nodes[c])
            && s' == OnDisconnect(s, d) && s'.routes == s.routes - {d}
            && net'.nodes == net.nodes[c := net'.nodes[c]]
            && net'.nodes[c].seen == net.nodes[c].seen
            && net'.up == (var up' := net.up - {d};
                           if c in up' && HasUplink(s') then up'[c := net.up[c] + Dels(order)] else up')
  {
    hide Inv, Below, NodeOk, OnDisconnect, LinkAt, Distinct;
    var c := tr.up(d);
    var node := net.nodes[c];
    InvAt(tr, net, d);
    NodeDisconnects(tr, c, node, d);
    assert node.seen + {} == node.seen;
  }

  lemma DomainsWithout(tr: Tree, net: Net, net': Net, c: Id, d: Id)
    requires Domains(tr, net) && c in net.nodes && c in net'.nodes
    requires net'.nodes == net.nodes[c := net'.nodes[c]]
    requires net'.nodes[c].tables.routes == net.nodes[c].tables.routes - {d}
    requires net'.up.Keys == net.up.Keys - {d}
    requires forall n :: n in net.nodes && d in net.nodes[n].tables.routes ==> n == c
    ensures Domains(tr, net')
  {
  }

  lemma DropKeepsDomains(tr: Tree, net: Net, d: Id, order: seq<Id>)
    requires IsTree(tr) && Inv(tr, net) && Enabled(tr, net, Drop(d, order))
    ensures Domains(tr, Apply(tr, net, Drop(d, order)))
  {
    hide Fitting, Replay, Below, LinkOk, NodeOk, LinkAt, Distinct, Apply, OnDisconnect, Domains;
    var net', c := Apply(tr, net, Drop(d, order)), tr.up(d);
    InvAt(tr, net, d);
    DropShape(tr, net, d, order);
    forall n | n in net.nodes && d in net.nodes[n].tables.routes ensures n == c {
      ChildOf(tr, n, net.nodes[n], d);
    }
    DomainsWithout(tr, net, net', c, d);
  }

  lemma DropKeeps(tr: Tree, net: Net, d: Id, order: seq<Id>)
    requires IsTree(tr) && Inv(tr, net) && Enabled(tr, net, Drop(d, order))
    ensures Inv(tr, Apply(tr, net, Drop(d, order)))
  {
    hide Fitting, Replay, Below, LinkOk, NodeOk, OnDisconnect, Apply, Domains, Distinct;
    var net', c := Apply(tr, net, Drop(d, order)), tr.up(d);
    InvAt(tr, net, d);
    UpDiffers(tr, d);
    DropShape(tr, net, d, order);
    DropKeepsDomains(tr, net, d, order);
    if c in net.up {
      InvAt(tr, net, c);
      UpDiffers(tr, c);
      UplinkDrops(tr, net, c, d, net'.nodes[c], order);
    }
    StepOf(tr, net, net', c, d);
  }

  lemma ChildOf(tr: Tree, n: Id, node: Node, d: Id)
    requires IsTree(tr) && NodeOk(tr, n, node) && d in node.tables.routes
    ensures d != MASTER && tr.up(d) == n && d in node.tables.routes[d]
  {
  }

  lemma UplinkDrops(tr: Tree, net: Net, c: Id, d: Id, node': Node, order: seq<Id>)
    requires IsTree(tr) && Inv(tr, net) && c in net.up && d in net.nodes[c].tables.routes
    requires node'.tables == OnDisconnect(net.nodes[c].tables, d) && node'.seen == net.nodes[c].seen
    requires Distinct(order) && (set t | t in order) == net.nodes[c].tables.routes[d]
    ensures var q := if HasUplink(node'.tables) then net.up[c] + Dels(order) else net.up[c];
            LinkOk(tr, c, q, net.nodes[tr.up(c)].tables.routes[c], node', net.nodes[tr.up(c)].seen)
  {
    hide Fitting, Replay, Below, NodeOk, OnDisconnect;
    var q, r, seen := net.up[c], net.nodes[tr.up(c)].tables.routes[c], net.nodes[tr.up(c)].seen;
    var node := net.nodes[c];
    InvAt(tr, net, c);
    NodeDisconnects(tr, c, node, d);
    assert forall t :: t in order <==> t in node.tables.routes[d];
    if HasUplink(node'.tables) {
      LinkSendsDels(tr, c, q, r, node, node', seen, order);
    } else {
      LinkWeakens(tr, c, q, r, node, node', seen, seen);
    }
  }

  lemma ConnectShape(tr: Tree, net: Net, d: Id)
    requires IsTree(tr) && Inv(tr, net) && Enabled(tr, net, Connect(d))
    ensures var net', c := Apply(tr, net, Connect(d)), tr.up(d);
            && c in net.nodes && c != d && d != MASTER
            && NodeOk(tr, c, net'.nodes[c]) && NodeOk(tr, d, net'.nodes[d])
            && net'.nodes == net.nodes[d := net'.nodes[d]][c := net'.nodes[c]]
            && net'.nodes[d].seen == {} && net'.nodes[d].tables.routes == map[]
            && net'.nodes[d].tables == Tables(Some(c), map[], map[c := c], {c})
            && net'.nodes[c].tables == Notice(net.nodes[c].tables, d)
            && net'.nodes[c].seen == net.nodes[c].seen + {d}
            && d !in net.up && d !in net.nodes[c].tables.table && d !in net.nodes[c].tables.routes
            && Some(d) != net.nodes[c].tables.parent && Below(tr, d, c)
            && net'.up == (var up' := net.up[d := []];
                           if c in net.up && HasUplink(net'.nodes[c].tables)
                           then up'[c := net.up[c] + [Add(d)]] else up')
  {
    hide Fitting, Replay, Below, LinkOk, NodeOk, LinkAt;
    var c := tr.up(d);
    UpDiffers(tr, d);
    NewIsUnknown(tr, net, d);
    assert NodeOk(tr, c, net.nodes[c]);
    NodeNotices(tr, c, net.nodes[c], d);
    FreshNode(tr, d);
    assert net.nodes[c].gone + {} == net.nodes[c].gone;
  }

  lemma ConnectKeepsDomains(tr: Tree, net: Net, d: Id)
    requires IsTree(tr) && Inv(tr, net) && Enabled(tr, net, Connect(d))
    ensures Domains(tr, Apply(tr, net, Connect(d)))
  {
    hide Fitting, Replay, Below, LinkOk, NodeOk, LinkAt, Apply, Domains;
    ConnectShape(tr, net, d);
    DomainsWith(tr, net, Apply(tr, net, Connect(d)), tr.up(d), d);
  }

  lemma DomainsWith(tr: Tree, net: Net, net': Net, c: Id, d: Id)
    requires Domains(tr, net) && c in net.nodes && c in net'.nodes && d in net'.nodes && c != d
    requires d != MASTER && tr.up(d) == c && d !in net.up && d !in net.nodes[c].tables.routes
    requires net'.nodes == net.nodes[d := net'.nodes[d]][c := net'.nodes[c]]
    requires net'.nodes[c].tables.routes.Keys == net.nodes[c].tables.routes.Keys + {d}
    requires net'.nodes[d].tables.routes == map[] && d !in net.nodes
    requires net'.up.Keys == net.up.Keys + {d}
    ensures Domains(tr, net')
  {
    forall e | e in net'.up
      ensures e != MASTER && e in net'.nodes && tr.up(e) in net'.nodes && e in net'.nodes[tr.up(e)].tables.routes
    {
      assert e == d || e in net.up;
    }
    forall n, e | n in net'.nodes && e in net'.nodes[n].tables.routes ensures e in net'.up {
      assert n == c || n == d || e in net.nodes[n].tables.routes;
    }
  }

  lemma ConnectKeeps(tr: Tree, net: Net, d: Id)
    requires IsTree(tr) && Inv(tr, net) && Enabled(tr, net, Connect(d))
    ensures Inv(tr, Apply(tr, net, Connect(d)))
  {
    hide Fitting, Replay, Below, LinkOk, NodeOk, Apply, Domains;
    var net', c := Apply(tr, net, Connect(d)), tr.up(d);
    ConnectShape(tr, net, d);
    ConnectKeepsDomains(tr, net, d);
    FreshLink(tr, d, net'.nodes[d], net'.nodes[c].seen);
    if c in net.up {
      InvAt(tr, net, c);
      UpDiffers(tr, c);
      UplinkKeeps(tr, net, c, net'.nodes[c], Add(d));
    }
    StepOf(tr, net, net', c, d);
  }

  lemma NewIsUnknown(tr: Tree, net: Net, d: Id)
    requires IsTree(tr) && Inv(tr, net) && Enabled(tr, net, Connect(d))
    ensures d !in net.up && d !in net.nodes[tr.up(d)].tables.table
  {
    hide LinkAt, Apply, Below;
    NotBelowAnother(tr, tr.up(d), net.nodes[tr.up(d)], d);
  }

  lemma NotBelowAnother(tr: Tree, n: Id, node: Node, d: Id)
    requires IsTree(tr) && NodeOk(tr, n, node) && d != MASTER && tr.up(d) == n && d !in node.tables.routes
    ensures d !in node.tables.table
  {
    var s := node.tables;
    if d in s.table && s.table[d] in s.routes && d in s.routes[s.table[d]] {
      BelowDepth(tr, n, s.table[d]);
    }
  }

  lemma FreshNode(tr: Tree, d: Id)
    requires IsTree(tr) && d != MASTER
    ensures NodeOk(tr, d, Node(Tables(Some(tr.up(d)), map[], map[tr.up(d) := tr.up(d)], {tr.up(d)}), {}, {}))
  {
  }

  lemma FreshLink(tr: Tree, d: Id, node: Node, seen: set<Id>)
    requires IsTree(tr) && node.tables.parent.Some? && node.seen == {}
    requires node.tables.table == map[node.tables.parent.value := node.tables.parent.value]
    ensures LinkOk(tr, d, [], {d}, node, seen)
  {
    assert Replay([], {d}) == {d};
  }

  lemma LoseParentKeeps(tr: Tree, net: Net, d: Id)
    requires IsTree(tr) && Inv(tr, net) && Enabled(tr, net, LoseParent(d))
    ensures Inv(tr, Apply(tr, net, LoseParent(d)))
  {
    hide Fitting, Replay, Below, LinkOk, NodeOk;
    var net', node := Apply(tr, net, LoseParent(d)), net.nodes[d];
    assert NodeOk(tr, d, node);
    ParentEntry(tr, d, node);
    assert node.seen + {} == node.seen && node.gone + {} == node.gone;
    LosesEntry(tr, d, node);
    if d in net.up {
      InvAt(tr, net, d);
      UpDiffers(tr, d);
      var up := net.nodes[tr.up(d)];
      LinkWeakens(tr, d, net.up[d], up.tables.routes[d], node, net'.nodes[d], up.seen, up.seen);
    }
    StepOf(tr, net, net', d, d);
  }

  /** The parent is not among the contexts known through children. */
  lemma LosesEntry(tr: Tree, d: Id, node: Node)
    requires IsTree(tr) && NodeOk(tr, d, node) && HasUplink(node.tables)
    ensures var s := node.tables;
            NodeOk(tr, d, node.(tables := s.(table := s.table - {s.parent.value})))
  {
    var s := node.tables;
    ParentEntry(tr, d, node);
    forall e, t | e in s.routes && t in s.routes[e] ensures t != s.parent.value {
      BelowDepth(tr, t, e);
    }
  }

  lemma HearDelKeeps(tr: Tree, net: Net, n: Id, t: Id)
    requires IsTree(tr) && Inv(tr, net) && Enabled(tr, net, HearDel(n, t))
    ensures Apply(tr, net, HearDel(n, t)) == net
  {
    hide LinkAt, Below, NodeOk, OnDel;
    var node := net.nodes[n];
    assert NodeOk(tr, n, node);
    HearsDel(tr, n, node, t);
    assert node.seen + {} == node.seen && node.gone + {} == node.gone;
    assert net.nodes[n := node] == net.nodes;
  }

  /** A DEL_ROUTE that comes down from the parent deletes nothing. */
  lemma HearsDel(tr: Tree, n: Id, node: Node, t: Id)
    requires IsTree(tr) && NodeOk(tr, n, node) && HasUplink(node.tables) && t != tr.up(n)
    ensures OnDel(node.tables, tr.up(n), t) == (node.tables, false)
  {
    ParentEntry(tr, n, node);
    UpDiffers(tr, n);
    assert tr.up(n) !in node.tables.routes;
    if t !in node.tables.table {
      assert node.tables.table - {t} == node.tables.table;
    }
  }

  /** Every step of every context keeps tables and links in step. */
  lemma StepKeeps(tr: Tree, net: Net, e: Event)
    requires IsTree(tr) && Inv(tr, net) && Enabled(tr, net, e)
    ensures Inv(tr, Apply(tr, net, e))
  {
    match e
    case Connect(d) => ConnectKeeps(tr, net, d);
    case Process(d) => if net.up[d][0].Reply? { ReplyKeeps(tr, net, d); } else { ProcessKeeps(tr, net, d); }
    case Drop(d, order) => DropKeeps(tr, net, d, order);
    case LoseParent(d) => LoseParentKeeps(tr, net, d);
    case Announce(c, t, dst) => AnnounceKeeps(tr, net, c, t, dst);
    case HearDel(n, t) => HearDelKeeps(tr, net, n, t);
  }

  // ---------------------------------------------------------------- whole runs

  /** Only the master runs. */
  const START := Net(map[MASTER := Node(Tables(None, map[], map[], {}), {}, {})], map[])

  ghost predicate CanRun(tr: Tree, net: Net, events: seq<Event>)
    decreases |events|
  {
    events == [] || (Enabled(tr, net, events[0]) && CanRun(tr, Apply(tr, net, events[0]), events[1..]))
  }

  ghost function Run(tr: Tree, net: Net, events: seq<Event>): Net
    requires CanRun(tr, net, events)
    decreases |events|
  {
    if events == [] then net else Run(tr, Apply(tr, net, events[0]), events[1..])
  }

  lemma {:induction false} RunKeeps(tr: Tree, net: Net, events: seq<Event>)
    requires IsTree(tr) && Inv(tr, net) && CanRun(tr, net, events)
    ensures Inv(tr, Run(tr, net, events))
    decreases |events|
  {
    hide Inv;
    if events != [] {
      StepKeeps(tr, net, events[0]);
      RunKeeps(tr, Apply(tr, net, events[0]), events[1..]);
    }
  }

  /** Some run leads to `net`. */
  ghost predicate Reachable(tr: Tree, net: Net)
  {
    exists events :: CanRun(tr, START, events) && Run(tr, START, events) == net
  }

  lemma ReachableInv(tr: Tree, net: Net)
    requires IsTree(tr) && Reachable(tr, net)
    ensures Inv(tr, net)
  {
    var events :| CanRun(tr, START, events) && Run(tr, START, events) == net;
    RunKeeps(tr, START, events);
  }

  /** Both ends of the link between `d` and its parent hold its stream. */
  predicate Live(net: Net, d: Id)
  {
    d in net.up && d in net.nodes && HasUplink(net.nodes[d].tables)
  }

  predicate Routed(net: Net, n: Id, t: Id)
    requires n in net.nodes
  {
    exists e :: e in net.nodes[n].tables.routes && t in net.nodes[n].tables.routes[e]
  }

  /**
   On a live link, what is queued turns the parent's route set for it into exactly the child's id and
   the union of the child's own route sets.
   */
  lemma QueuedUpdatesConverge(tr: Tree, net: Net, d: Id)
    requires IsTree(tr) && Reachable(tr, net) && Live(net, d)
    ensures tr.up(d) in net.nodes && d in net.nodes[tr.up(d)].tables.routes
    ensures forall t :: t in Replay(net.up[d], net.nodes[tr.up(d)].tables.routes[d]) <==> t == d || Routed(net, d, t)
  {
    hide Reachable, Fitting, Replay;
    ReachableInv(tr, net);
    InvAt(tr, net, d);
    forall t ensures Exports(net.nodes[d].tables, t) <==> Routed(net, d, t) {
      RoutedIsExported(tr, d, net.nodes[d], t);
    }
  }

  lemma RoutedIsExported(tr: Tree, n: Id, node: Node, t: Id)
    requires IsTree(tr) && NodeOk(tr, n, node)
    ensures Exports(node.tables, t) <==> exists e :: e in node.tables.routes && t in node.tables.routes[e]
  {
    forall e | e in node.tables.routes && t in node.tables.routes[e] ensures Some(t) != node.tables.parent {
      BelowDepth(tr, t, e);
    }
  }

  /** `t` is `d`, or reaches it over links whose parent's end is up. */
  ghost predicate Connected(tr: Tree, net: Net, t: Id, d: Id)
    requires IsTree(tr)
    decreases tr.depth(t)
  {
    t == d || (t != MASTER && t in net.up && Connected(tr, net, tr.up(t), d))
  }

  /** Nothing is in flight: no message is queued and no disconnection waits to be noticed. */
  predicate Quiet(net: Net)
  {
    forall d :: d in net.up ==> net.up[d] == [] && Live(net, d)
  }

  lemma QuietLink(tr: Tree, net: Net, d: Id)
    requires IsTree(tr) && Inv(tr, net) && Quiet(net) && d in net.up
    ensures d != MASTER && tr.up(d) in net.nodes && d in net.nodes[tr.up(d)].tables.routes && d in net.nodes
    ensures forall t :: t in net.nodes[tr.up(d)].tables.routes[d] <==> t == d || Exports(net.nodes[d].tables, t)
  {
    InvAt(tr, net, d);
    assert Replay([], net.nodes[tr.up(d)].tables.routes[d]) == net.nodes[tr.up(d)].tables.routes[d];
  }

  lemma {:induction false} ConnectedUp(tr: Tree, net: Net, t: Id, d: Id)
    requires IsTree(tr) && Connected(tr, net, t, d) && d != MASTER && d in net.up
    ensures Connected(tr, net, t, tr.up(d))
    decreases tr.depth(t)
  {
    if t != d {
      ConnectedUp(tr, net, tr.up(t), d);
    } else {
      assert Connected(tr, net, tr.up(t), tr.up(d));
    }
  }

  lemma {:induction false} RoutedIsConnected(tr: Tree, net: Net, t: Id, d: Id)
    requires IsTree(tr) && Inv(tr, net) && Quiet(net) && d in net.up
    requires tr.up(d) in net.nodes && d in net.nodes[tr.up(d)].tables.routes
    requires t in net.nodes[tr.up(d)].tables.routes[d]
    ensures Connected(tr, net, t, d)
    decreases tr.depth(t) - tr.depth(d)
  {
    hide LinkAt, Below, Quiet;
    QuietLink(tr, net, d);
    if t != d {
      assert NodeOk(tr, d, net.nodes[d]);
      var e := net.nodes[d].tables.table[t];
      assert e in net.nodes[d].tables.routes && t in net.nodes[d].tables.routes[e] && e in net.up;
      assert Below(tr, t, e) && tr.up(e) == d;
      BelowDepth(tr, t, e);
      assert tr.depth(d) < tr.depth(e);
      RoutedIsConnected(tr, net, t, e);
      ConnectedUp(tr, net, t, e);
    }
  }

  /** The child of `d` through which `t` reaches it. */
  lemma {:induction false} StepTowards(tr: Tree, net: Net, t: Id, d: Id) returns (e: Id)
    requires IsTree(tr) && Connected(tr, net, t, d) && t != d
    ensures e != MASTER && e in net.up && tr.up(e) == d && Connected(tr, net, t, e)
    decreases tr.depth(t)
  {
    if tr.up(t) == d {
      e := t;
    } else {
      e := StepTowards(tr, net, tr.up(t), d);
    }
  }

  lemma {:induction false} ConnectedIsRouted(tr: Tree, net: Net, t: Id, d: Id)
    requires IsTree(tr) && Inv(tr, net) && Quiet(net) && d in net.up && Connected(tr, net, t, d)
    ensures tr.up(d) in net.nodes && d in net.nodes[tr.up(d)].tables.routes
    ensures t in net.nodes[tr.up(d)].tables.routes[d]
    decreases tr.depth(t) - tr.depth(d)
  {
    hide LinkAt, Below, Quiet;
    QuietLink(tr, net, d);
    if t != d {
      var e := StepTowards(tr, net, t, d);
      ConnectedDepth(tr, net, t, e);
      assert tr.depth(d) < tr.depth(e);
      ConnectedIsRouted(tr, net, t, e);
      assert NodeOk(tr, d, net.nodes[d]);
      assert Routed(net, d, t);
      RoutedIsExported(tr, d, net.nodes[d], t);
    }
  }

  lemma {:induction false} ConnectedDepth(tr: Tree, net: Net, t: Id, d: Id)
    requires IsTree(tr) && Connected(tr, net, t, d)
    ensures tr.depth(d) <= tr.depth(t)
    decreases tr.depth(t)
  {
    if t != d {
      ConnectedDepth(tr, net, tr.up(t), d);
    }
  }

  /**
   With nothing in flight, the table of every context maps exactly the contexts connected below it,
   each to the child it is reached through; and its parent's id to its parent.
   */
  lemma QuietTablesAreExact(tr: Tree, net: Net, n: Id, t: Id)
    requires IsTree(tr) && Reachable(tr, net) && Quiet(net) && n in net.nodes && (n == MASTER || t != tr.up(n))
    ensures t in net.nodes[n].tables.table ==>
      var d := net.nodes[n].tables.table[t]; d in net.up && tr.up(d) == n && Connected(tr, net, t, d)
    ensures forall d :: d in net.up && tr.up(d) == n && Connected(tr, net, t, d) ==>
      t in net.nodes[n].tables.table && net.nodes[n].tables.table[t] == d
  {
    hide Reachable, Inv, Below, Quiet, NodeOk, Connected;
    ReachableInv(tr, net);
    var s := net.nodes[n].tables;
    if t in s.table {
      EntryIsRoute(tr, net, n, t);
      RoutedIsConnected(tr, net, t, s.table[t]);
    }
    forall d | d in net.up && tr.up(d) == n && Connected(tr, net, t, d) ensures t in s.table && s.table[t] == d {
      ConnectedIsRouted(tr, net, t, d);
      NodeAt(tr, net, n);
      RouteIsEntry(tr, n, net.nodes[n], d, t);
    }
  }

  lemma EntryIsRoute(tr: Tree, net: Net, n: Id, t: Id)
    requires IsTree(tr) && Inv(tr, net) && n in net.nodes && t in net.nodes[n].tables.table
    requires n == MASTER || t != tr.up(n)
    ensures var s := net.nodes[n].tables;
            var d := s.table[t]; d in s.routes && t in s.routes[d] && d in net.up && tr.up(d) == n
  {
    hide LinkAt, Below;
    assert NodeOk(tr, n, net.nodes[n]);
  }

  lemma RouteIsEntry(tr: Tree, n: Id, node: Node, d: Id, t: Id)
    requires IsTree(tr) && NodeOk(tr, n, node)
    requires d in node.tables.routes && t in node.tables.routes[d]
    ensures t in node.tables.table && node.tables.table[t] == d
  {
    assert Below(tr, t, d);
  }

  lemma NodeAt(tr: Tree, net: Net, n: Id)
    requires IsTree(tr) && Inv(tr, net) && n in net.nodes
    ensures NodeOk(tr, n, net.nodes[n])
  {
  }

  /** Once a context has noticed that a child is gone, no entry of its table names that stream. */
  lemma DroppedStreamIsForgotten(tr: Tree, net: Net, d: Id, order: seq<Id>)
    requires IsTree(tr) && Reachable(tr, net) && Enabled(tr, net, Drop(d, order))
    ensures var s := Apply(tr, net, Drop(d, order)).nodes[tr.up(d)].tables;
            d !in s.routes && forall t :: t in s.table ==> s.table[t] != d
  {
    hide Reachable, Inv, NodeOk, LinkAt, OnDisconnect;
    ReachableInv(tr, net);
    InvAt(tr, net, d);
    NodeDisconnects(tr, tr.up(d), net.nodes[tr.up(d)], d);
  }

  /** One that has noticed the loss of its parent has no entry for that stream, keeps all others, and sends no more. */
  lemma LostParentIsForgotten(tr: Tree, net: Net, d: Id, ms: seq<Msg>)
    requires Enabled(tr, net, LoseParent(d))
    ensures var net' := Apply(tr, net, LoseParent(d));
            var s, s' := net.nodes[d].tables, net'.nodes[d].tables;
            && s'.parent == s.parent && s'.routes == s.routes
            && (forall t :: t in s'.table <==> t in s.table && Some(t) != s.parent)
            && (forall t :: t in s'.table ==> s'.table[t] == s.table[t])
            && Send(net', d, ms) == net'
  {
  }

  /** Every context in a table is known as a context. */
  ghost predicate AllKnown(net: Net)
  {
    forall n, t :: n in net.nodes && t in net.nodes[n].tables.table ==> t in net.nodes[n].tables.contexts
  }

  lemma StepKeepsKnown(tr: Tree, net: Net, e: Event)
    requires AllKnown(net) && Enabled(tr, net, e)
    ensures AllKnown(Apply(tr, net, e))
  {
    hide Send, Dels, StreamById;
    SendingKeepsNodes();
  }

  lemma SendingKeepsNodes()
    ensures forall net: Net, n: Id, ms: seq<Msg> :: n in net.nodes ==> Send(net, n, ms).nodes == net.nodes
  {
  }

  lemma {:induction false} RunKeepsKnown(tr: Tree, net: Net, events: seq<Event>)
    requires AllKnown(net) && CanRun(tr, net, events)
    ensures AllKnown(Run(tr, net, events))
    decreases |events|
  {
    hide Enabled, Apply, AllKnown;
    if events != [] {
      StepKeepsKnown(tr, net, events[0]);
      RunKeepsKnown(tr, Apply(tr, net, events[0]), events[1..]);
    }
  }

  /** Losing a child makes the disconnect handlers run of just the contexts that were reached through it. */
  lemma LostAreThoseRouted(tr: Tree, net: Net, d: Id)
    requires IsTree(tr) && Reachable(tr, net) && d in net.up
    ensures tr.up(d) in net.nodes && d in net.nodes[tr.up(d)].tables.routes
    ensures var s := net.nodes[tr.up(d)].tables;
            Lost(s, d) == s.routes[d] == (set t | t in s.table && s.table[t] == d)
  {
    hide Inv, NodeOk, LinkAt;
    ReachableInv(tr, net);
    InvAt(tr, net, d);
    var events :| CanRun(tr, START, events) && Run(tr, START, events) == net;
    RunKeepsKnown(tr, START, events);
    NodeDisconnects(tr, tr.up(d), net.nodes[tr.up(d)], d);
    forall t | t in net.nodes[tr.up(d)].tables.routes[d] ensures net.nodes[tr.up(d)].tables.table[t] == d {
      RouteIsEntry(tr, tr.up(d), net.nodes[tr.up(d)], d, t);
    }
  }

  /**
   The reply to a proxied connect travels behind the ADD_ROUTE for the new context: whichever ancestor
   it reaches has processed that already, and still has the route unless it has lost it since.
   */
  lemma RouteBeforeReply(tr: Tree, net: Net, d: Id)
    requires IsTree(tr) && Reachable(tr, net) && Enabled(tr, net, Process(d)) && net.up[d][0].Reply?
    ensures var node, t := net.nodes[tr.up(d)], net.up[d][0].target;
            t in node.seen && (t in node.tables.table || t in node.gone)
  {
    hide Reachable, Inv, LinkAt, Below;
    ReachableInv(tr, net);
    InvAt(tr, net, d);
    PopReplyKeeps(tr, net, d);
  }

  // ---------------------------------------------------------------- progress

  /** How far the messages on the link of `d` may still have to go. */
  function Way(tr: Tree, net: Net, d: Id): nat
  {
    if d in net.up then |net.up[d]| * tr.depth(d) else 0
  }

  ghost function Hops(tr: Tree, net: Net): nat
  {
    Total(net.up.Keys, (d: Id) => Way(tr, net, d))
  }

  lemma OneLess(n: nat, depth: nat)
    requires n > 0
    ensures (n - 1) * depth == n * depth - depth
  {
  }

  /** What a delivery does to the links: one message less here, at most one more on the link above. */
  lemma ProcessMoves(tr: Tree, net: Net, d: Id)
    requires IsTree(tr) && Enabled(tr, net, Process(d)) && tr.up(d) != d
    ensures var up', c := Apply(tr, net, Process(d)).up, tr.up(d);
            && up'.Keys == net.up.Keys && up'[d] == net.up[d][1..]
            && (forall e :: e in net.up && e != c && e != d ==> up'[e] == net.up[e])
            && (c in net.up ==> up'[c] == net.up[c] || up'[c] == net.up[c] + [net.up[d][0]])
  {
  }

  lemma HopsFall(tr: Tree, net: Net, net': Net, d: Id, c: Id)
    requires d in net.up && net.up[d] != [] && d != c && tr.depth(c) < tr.depth(d)
    requires net'.up.Keys == net.up.Keys && |net'.up[d]| == |net.up[d]| - 1
    requires forall e :: e in net.up && e != c && e != d ==> net'.up[e] == net.up[e]
    requires c in net.up ==> |net'.up[c]| <= |net.up[c]| + 1
    ensures Hops(tr, net') < Hops(tr, net)
  {
    hide Total;
    var f: Id -> nat, g: Id -> nat := (e: Id) => Way(tr, net, e), (e: Id) => Way(tr, net', e);
    OneLess(|net.up[d]|, tr.depth(d));
    assert f(d) - g(d) == tr.depth(d);
    if c in net.up {
      TimesGrows(|net'.up[c]|, |net.up[c]| + 1, tr.depth(c));
      OneLess(|net.up[c]| + 1, tr.depth(c));
      assert g(c) <= f(c) + tr.depth(c);
      TotalChangeTwo(net.up.Keys, d, c, f, g);
    } else {
      TotalChange(net.up.Keys, d, f, g);
    }
  }

  /** Every delivery brings its message nearer, so between other events there are only finitely many. */
  lemma ProcessUsesHops(tr: Tree, net: Net, d: Id)
    requires IsTree(tr) && Reachable(tr, net) && Enabled(tr, net, Process(d))
    ensures Hops(tr, Apply(tr, net, Process(d))) < Hops(tr, net)
  {
    hide Reachable, Inv, Apply, LinkAt, Hops, NodeOk;
    ReachableInv(tr, net);
    InvAt(tr, net, d);
    UpDiffers(tr, d);
    ProcessMoves(tr, net, d);
    HopsFall(tr, net, Apply(tr, net, Process(d)), d, tr.up(d));
  }

  /** The deliveries, and the parents' noticing of disconnections that the children have noticed. */
  ghost predicate Settling(tr: Tree, net: Net, events: seq<Event>)
    decreases |events|
  {
    || events == []
    || (&& Enabled(tr, net, events[0])
        && (events[0].Process? || (events[0].Drop? && !Live(net, events[0].d)))
        && Settling(tr, Apply(tr, net, events[0]), events[1..]))
  }

  lemma {:induction false} RunSnoc(tr: Tree, net: Net, events: seq<Event>, e: Event)
    requires CanRun(tr, net, events) && Enabled(tr, Run(tr, net, events), e)
    ensures CanRun(tr, net, events + [e]) && Run(tr, net, events + [e]) == Apply(tr, Run(tr, net, events), e)
    decreases |events|
  {
    hide Enabled, Apply;
    if events == [] {
      assert events + [e] == [e];
      assert CanRun(tr, Apply(tr, net, e), []);
    } else {
      RunSnoc(tr, Apply(tr, net, events[0]), events[1..], e);
      assert (events + [e])[1..] == events[1..] + [e];
    }
  }

  lemma ReachableStep(tr: Tree, net: Net, e: Event)
    requires Reachable(tr, net) && Enabled(tr, net, e)
    ensures Reachable(tr, Apply(tr, net, e))
  {
    hide Enabled, Apply, Run, CanRun;
    var events :| CanRun(tr, START, events) && Run(tr, START, events) == net;
    RunSnoc(tr, START, events, e);
  }

  lemma {:induction false} Ordered(s: set<Id>) returns (order: seq<Id>)
    ensures Distinct(order) && forall t :: t in order <==> t in s
  {
    if s == {} {
      order := [];
    } else {
      var x :| x in s;
      var rest := Ordered(s - {x});
      order := [x] + rest;
      assert forall t :: t in order <==> t == x || t in rest;
    }
  }

  lemma NotQuietSettles(tr: Tree, net: Net) returns (e: Event)
    requires IsTree(tr) && Inv(tr, net) && !Quiet(net)
    ensures Enabled(tr, net, e) && (e.Process? || (e.Drop? && !Live(net, e.d)))
  {
    hide LinkAt, NodeOk, Distinct;
    var d :| d in net.up && (net.up[d] != [] || !Live(net, d));
    if net.up[d] != [] {
      e := Process(d);
    } else {
      var order := Ordered(net.nodes[tr.up(d)].tables.routes[d]);
      e := Drop(d, order);
    }
  }

  lemma ProcessKeepsLinks(tr: Tree, net: Net, d: Id)
    requires IsTree(tr) && Inv(tr, net) && Enabled(tr, net, Process(d))
    ensures Apply(tr, net, Process(d)).up.Keys == net.up.Keys
  {
    hide Apply, LinkAt, NodeOk;
    InvAt(tr, net, d);
    UpDiffers(tr, d);
    ProcessMoves(tr, net, d);
  }

  lemma DropsLink(tr: Tree, net: Net, d: Id, order: seq<Id>)
    requires IsTree(tr) && Enabled(tr, net, Drop(d, order))
    ensures |Apply(tr, net, Drop(d, order)).up.Keys| < |net.up.Keys|
  {
    assert Apply(tr, net, Drop(d, order)).up.Keys == net.up.Keys - {d};
  }

  /**
   So the network settles. Each step here leaves fewer links, or as many links and fewer hops, so no run of them
   goes on for ever; where none is left to take nothing is in flight.
   */
  lemma {:induction false} NetworkSettles(tr: Tree, net: Net) returns (events: seq<Event>)
    requires IsTree(tr) && Reachable(tr, net)
    ensures Settling(tr, net, events) && CanRun(tr, net, events) && Quiet(Run(tr, net, events))
    decreases |net.up.Keys|, Hops(tr, net)
  {
    hide Reachable, Inv, Apply, Enabled, Hops, Quiet;
    if Quiet(net) {
      events := [];
    } else {
      ReachableInv(tr, net);
      var e := NotQuietSettles(tr, net);
      ReachableStep(tr, net, e);
      if e.Process? {
        ProcessUsesHops(tr, net, e.d);
        ProcessKeepsLinks(tr, net, e.d);
      } else {
        DropsLink(tr, net, e.d, e.order);
      }
      var rest := NetworkSettles(tr, Apply(tr, net, e));
      events := [e] + rest;
      assert events[1..] == rest;
    }
  }
}
