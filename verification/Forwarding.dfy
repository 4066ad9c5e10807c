/**
 `Router._async_route`: hop-by-hop forwarding over the routing tables, with the checks that a message
 arrives on the stream its sender is reached through, and the dead messages that failures produce.
 */
module Forwarding {
  import opened Seqs
  import opened Routes
  import RouteNetwork

  const IS_DEAD: nat := 999

  /** A message's routing fields; `size` is the length of its data, `replyTo` is 0 when absent. */
  datatype Packet = Packet(dst: Id, src: Id, auth: Id, handle: nat, replyTo: nat, size: nat)
  {
    predicate IsDead() { replyTo == IS_DEAD }
  }

  datatype Verdict =
    | Invoke               // delivered to a local handler
    | Forward(stream: Id)  // written to the stream of a neighbour
    | BadAuth              // refused: not the stream of the authority it claims
    | BadSrc               // refused: not the stream of its source
    | NoRoute
    | TooLarge
    | OneWayOnly           // refused: between two streams without privilege

  /** Unidirectional routing forwards only from or to a privileged stream: that of the parent, in the first place. */
  datatype Mode = AnyWay | OneWay(privileged: set<Id>)
  {
    predicate Allows(from: Option<Id>, out: Id)
    {
      AnyWay? || from.None? || from.value in privileged || out in privileged
    }
  }

  function ParentStream(s: Tables): Option<Id>
  {
    if s.parent.Some? && s.parent.value in s.table then Some(s.table[s.parent.value]) else None
  }

  /**
   What context `self` does with a message that arrived on `from`, or that it sends itself. The stream by
   which its authority and its source are known is the one it must arrive on.
   */
  function Decide(self: Id, s: Tables, from: Option<Id>, m: Packet, max: nat, mode: Mode): Verdict
  {
    if m.size > max then TooLarge
    else if from.Some? && from != StreamById(s, m.auth) then BadAuth
    else if from.Some? && m.src != m.auth && from != StreamById(s, m.src) then BadSrc
    else if m.dst == self then Invoke
    else if OutStream(s, from, m).None? then NoRoute
    else if mode.Allows(from, OutStream(s, from, m).value) then Forward(OutStream(s, from, m).value)
    else OneWayOnly
  }

  /** The stream towards the destination: one known to lead there, or the parent's unless it came from there. */
  function OutStream(s: Tables, from: Option<Id>, m: Packet): Option<Id>
  {
    if m.dst in s.table then Some(s.table[m.dst])
    else if ParentStream(s) != StreamById(s, m.src) || from.None? then ParentStream(s)
    else None
  }

  class Router {
    const self: Id
    const parent: Option<Id>
    const maxMessageSize: nat
    const mode: Mode
    var streamById: map<Id, Id>
    var stamps: map<Id, Id>           // per stream, the authority given to what arrives on it
    var egressIds: map<Id, set<Id>>   // per stream, every destination a message from it asked for

    constructor (self: Id, parent: Option<Id>, max: nat, mode: Mode)
      ensures this.self == self && this.parent == parent && maxMessageSize == max && this.mode == mode
      ensures State() == Tables(parent, map[], map[], {}) && stamps == map[] && egressIds == map[]
    {
      this.self, this.parent, maxMessageSize, this.mode := self, parent, max, mode;
      streamById, stamps, egressIds := map[], map[], map[];
    }

    /** The tables as far as forwarding looks at them. */
    function State(): Tables
      reads this
    {
      Tables(parent, map[], streamById, {})
    }

    /** Once a message has passed its checks it is stamped, and its destination recorded for the stream. */
    method AsyncRoute(m: Packet, from: Option<Id>) returns (v: Verdict, routed: Packet)
      modifies this`egressIds
      ensures v == Decide(self, State(), from, m, maxMessageSize, mode)
      ensures from.None? || v in {BadAuth, BadSrc, TooLarge} ==> routed == m && egressIds == old(egressIds)
      ensures from.Some? && v !in {BadAuth, BadSrc, TooLarge} ==>
        && routed == (if from.value in stamps then m.(auth := stamps[from.value]) else m)
        && egressIds == old(egressIds)[from.value :=
             (if from.value in old(egressIds) then old(egressIds)[from.value] else {}) + {m.dst}]
    {
      routed := m;
      if m.size > maxMessageSize {
        return TooLarge, routed;
      }
      var parentStream := ParentStream(State());
      var srcStream := StreamById(State(), m.src);
      if from.Some? {
        var authStream := StreamById(State(), m.auth);
        if from != authStream {
          return BadAuth, routed;
        }
        if m.src != m.auth && from != srcStream {
          return BadSrc, routed;
        }
        if from.value in stamps {
          routed := m.(auth := stamps[from.value]);
        }
        var seen := if from.value in egressIds then egressIds[from.value] else {};
        egressIds := egressIds[from.value := seen + {m.dst}];
      }
      if m.dst == self {
        return Invoke, routed;
      }
      var out := if m.dst in streamById then Some(streamById[m.dst]) else None;
      if out.None? && (parentStream != srcStream || from.None?) {
        out := parentStream;
      }
      if out.None? {
        return NoRoute, routed;
      }
      if from.Some? && mode.OneWay? && !(from.value in mode.privileged || out.value in mode.privileged) {
        return OneWayOnly, routed;
      }
      return Forward(out.value), routed;
    }
  }

  // ---------------------------------------------------------------- any tables

  /** Entries lead to children, but for the parent's own; the tables may otherwise be out of date. */
  ghost predicate Sane(tr: Tree, n: Id, s: Tables)
  {
    && s.parent == (if n == MASTER then None else Some(tr.up(n)))
    && (forall t :: t in s.table ==>
          if Some(t) == s.parent then s.table[t] == t else s.table[t] != MASTER && tr.up(s.table[t]) == n)
  }

  lemma ReachableTablesAreSane(tr: Tree, net: RouteNetwork.Net, n: Id)
    requires IsTree(tr) && RouteNetwork.Reachable(tr, net) && n in net.nodes
    ensures Sane(tr, n, net.nodes[n].tables)
  {
    hide RouteNetwork.Reachable, RouteNetwork.Inv;
    RouteNetwork.ReachableInv(tr, net);
    RouteNetwork.NodeAt(tr, net, n);
    NodeIsSane(tr, n, net.nodes[n]);
  }

  lemma NodeIsSane(tr: Tree, n: Id, node: RouteNetwork.Node)
    requires IsTree(tr) && RouteNetwork.NodeOk(tr, n, node)
    ensures Sane(tr, n, node.tables)
  {
    if HasUplink(node.tables) {
      RouteNetwork.ParentEntry(tr, n, node);
    }
  }

  /** A message accepted off the parent's stream is sent back up only if it is addressed to the parent itself. */
  lemma NeverBackUp(tr: Tree, n: Id, s: Tables, m: Packet, max: nat, mode: Mode)
    requires IsTree(tr) && Sane(tr, n, s) && n != MASTER
    ensures var v := Decide(n, s, Some(tr.up(n)), m, max, mode);
            && (v.Forward? && m.dst != tr.up(n) ==> v.stream != MASTER && tr.up(v.stream) == n)
            && (v.Forward? ==> (v.stream == tr.up(n) <==> m.dst == tr.up(n)))
  {
    SidesDiffer(tr, n);
  }

  /** Whatever the tables say, a message is forwarded to the parent or to a child, and one's own is not checked. */
  lemma ForwardsToNeighbour(tr: Tree, n: Id, s: Tables, from: Option<Id>, m: Packet, max: nat, mode: Mode)
    requires IsTree(tr) && Sane(tr, n, s)
    ensures var v := Decide(n, s, from, m, max, mode);
            && (v.Forward? ==> (n != MASTER && v.stream == tr.up(n)) || (v.stream != MASTER && tr.up(v.stream) == n))
            && (from.None? ==> v !in {BadAuth, BadSrc})
  {
  }

  /** How a journey ends: with a context's verdict, or at a neighbour that no longer exists. */
  datatype Ending = Ended(verdict: Verdict) | Lost

  datatype Journey = Journey(visited: seq<Id>, ending: Ending)

  /** The tables of all contexts when the k-th hop is decided; a context may have vanished by then. */
  type Tabling = nat -> map<Id, Tables>

  ghost predicate AllSane(tr: Tree, tabling: Tabling, height: nat)
  {
    forall k, n :: n in tabling(k) ==> Sane(tr, n, tabling(k)[n]) && tr.depth(n) <= height
  }

  /** It came down from the parent of `n`. */
  predicate Downward(tr: Tree, n: Id, from: Option<Id>)
  {
    n != MASTER && from == Some(tr.up(n))
  }

  /** In unidirectional mode only the parent's stream is privileged, as long as none is stamped. */
  function ModeAt(tr: Tree, n: Id, oneWay: bool): Mode
  {
    if oneWay then OneWay(if n == MASTER then {} else {tr.up(n)}) else AnyWay
  }

  /** Hops left at most: up to the master and down again, or only down once the message came down. */
  function HopsLeft(tr: Tree, n: Id, from: Option<Id>, height: nat): int
  {
    if Downward(tr, n, from) then height - tr.depth(n) else height + tr.depth(n)
  }

  /**
   A message's journey through tables that may be stale and may change between hops: it ends, after
   at most `HopsLeft` hops.
   */
  ghost function Travel(
    tr: Tree, tabling: Tabling, height: nat, k: nat, n: Id, from: Option<Id>, m: Packet, max: nat,
    oneWay: bool): (j: Journey)
    requires IsTree(tr) && AllSane(tr, tabling, height) && n in tabling(k)
    requires Downward(tr, n, from) ==> m.dst != tr.up(n)
    ensures 1 <= |j.visited| <= 1 + HopsLeft(tr, n, from, height) && j.visited[0] == n
    decreases HopsLeft(tr, n, from, height)
  {
    assert 0 <= HopsLeft(tr, n, from, height);
    var v := Decide(n, tabling(k)[n], from, m, max, ModeAt(tr, n, oneWay));
    if !v.Forward? then Journey([n], Ended(v))
    else if v.stream !in tabling(k + 1) then Journey([n], Lost)
    else
      assert Falls(tr, n, from, v.stream, m, height) by {
        HopsFall(tr, tabling(k)[n], n, from, m, max, height, ModeAt(tr, n, oneWay));
      }
      var rest := Travel(tr, tabling, height, k + 1, v.stream, Some(n), m, max, oneWay);
      Journey([n] + rest.visited, rest.ending)
  }

  ghost predicate Falls(tr: Tree, n: Id, from: Option<Id>, next: Id, m: Packet, height: nat)
  {
    && HopsLeft(tr, next, Some(n), height) < HopsLeft(tr, n, from, height)
    && (Downward(tr, next, Some(n)) ==> m.dst != n)
    && (Downward(tr, n, from) ==> Downward(tr, next, Some(n)))
    && (Downward(tr, next, Some(n)) || (n != MASTER && next == tr.up(n)))
  }

  lemma HopsFall(tr: Tree, s: Tables, n: Id, from: Option<Id>, m: Packet, max: nat, height: nat, mode: Mode)
    requires IsTree(tr) && Sane(tr, n, s) && tr.depth(n) <= height
    requires Downward(tr, n, from) ==> m.dst != tr.up(n)
    ensures var v := Decide(n, s, from, m, max, mode);
            v.Forward? ==> Falls(tr, n, from, v.stream, m, height)
  {
    var v := Decide(n, s, from, m, max, mode);
    if v.Forward? {
      ForwardsToNeighbour(tr, n, s, from, m, max, mode);
      if Downward(tr, n, from) {
        NeverBackUp(tr, n, s, m, max, mode);
      }
    }
  }

  lemma FallsGives(tr: Tree, n: Id, from: Option<Id>, next: Id, m: Packet, height: nat)
    requires Falls(tr, n, from, next, m, height)
    ensures HopsLeft(tr, next, Some(n), height) < HopsLeft(tr, n, from, height)
    ensures Downward(tr, next, Some(n)) ==> m.dst != tr.up(next)
  {
  }

  predicate GoesUp(tr: Tree, path: seq<Id>, i: nat)
    requires i + 1 < |path|
  {
    path[i] != MASTER && path[i + 1] == tr.up(path[i])
  }

  predicate GoesDown(tr: Tree, path: seq<Id>, i: nat)
    requires i + 1 < |path|
  {
    path[i + 1] != MASTER && path[i] == tr.up(path[i + 1])
  }

  /** One upward run and then one downward run. */
  ghost predicate UpThenDown(tr: Tree, path: seq<Id>, turn: nat)
  {
    && (forall i :: 0 <= i < turn && i + 1 < |path| ==> GoesUp(tr, path, i))
    && (forall i :: turn <= i && i + 1 < |path| ==> GoesDown(tr, path, i))
  }

  lemma OneMoreHop(tr: Tree, n: Id, rest: seq<Id>, later: nat, down: bool)
    requires rest != [] && UpThenDown(tr, rest, later) && (down ==> later == 0)
    requires if down then Downward(tr, rest[0], Some(n)) else n != MASTER && rest[0] == tr.up(n)
    ensures UpThenDown(tr, [n] + rest, if down then 0 else later + 1)
  {
    var path, turn := [n] + rest, if down then 0 else later + 1;
    forall i | 0 <= i < turn && i + 1 < |path| ensures GoesUp(tr, path, i) {
      assert i > 0 ==> GoesUp(tr, rest, i - 1);
    }
    forall i | turn <= i && i + 1 < |path| ensures GoesDown(tr, path, i) {
      assert i > 0 ==> GoesDown(tr, rest, i - 1);
    }
  }

  lemma {:induction false} TravelsUpThenDown(
    tr: Tree, tabling: Tabling, height: nat, k: nat, n: Id, from: Option<Id>, m: Packet, max: nat,
    oneWay: bool)
    returns (turn: nat)
    requires IsTree(tr) && AllSane(tr, tabling, height) && n in tabling(k)
    requires Downward(tr, n, from) ==> m.dst != tr.up(n)
    ensures UpThenDown(tr, Travel(tr, tabling, height, k, n, from, m, max, oneWay).visited, turn)
    ensures Downward(tr, n, from) ==> turn == 0
    decreases HopsLeft(tr, n, from, height)
  {
    hide Decide, Below, ModeAt;
    var v := Decide(n, tabling(k)[n], from, m, max, ModeAt(tr, n, oneWay));
    turn := 0;
    if v.Forward? && v.stream in tabling(k + 1) {
      HopsFall(tr, tabling(k)[n], n, from, m, max, height, ModeAt(tr, n, oneWay));
      var later := TravelsUpThenDown(tr, tabling, height, k + 1, v.stream, Some(n), m, max, oneWay);
      var rest := Travel(tr, tabling, height, k + 1, v.stream, Some(n), m, max, oneWay).visited;
      OneMoreHop(tr, n, rest, later, Downward(tr, v.stream, Some(n)));
      turn := if Downward(tr, v.stream, Some(n)) then 0 else later + 1;
    }
  }

  /**
   However stale the tables are, and however they change meanwhile, a message sent by `n` makes one
   upward run and one downward run of at most twice the height of the tree together, and ends.
   */
  lemma ForwardingTerminates(tr: Tree, tabling: Tabling, height: nat, n: Id, m: Packet, max: nat, oneWay: bool)
    requires IsTree(tr) && AllSane(tr, tabling, height) && n in tabling(0)
    ensures var j := Travel(tr, tabling, height, 0, n, None, m, max, oneWay);
            && |j.visited| - 1 <= height + tr.depth(n) <= 2 * height
            && exists turn :: UpThenDown(tr, j.visited, turn)
  {
    var turn := TravelsUpThenDown(tr, tabling, height, 0, n, None, m, max, oneWay);
  }

  // ---------------------------------------------------------------- exact tables

  /** Every context knows exactly the contexts below it, and its parent. */
  ghost predicate Exact(tr: Tree, tables: map<Id, Tables>)
    requires IsTree(tr)
  {
    && MASTER in tables
    && (forall n :: n in tables ==> Sane(tr, n, tables[n]))
    && (forall n {:trigger tr.up(n) in tables} :: n in tables && n != MASTER ==>
          tr.up(n) in tables && tr.up(n) in tables[n].table)
    && (forall n, t :: n in tables && t in tables[n].table && Some(t) != tables[n].parent ==>
          Below(tr, t, tables[n].table[t]))
    && (forall n, t :: n in tables && t in tables && t != n && Below(tr, t, n) ==> t in tables[n].table)
  }

  /** The child of `n` towards `t`. */
  ghost function ChildTowards(tr: Tree, t: Id, n: Id): (d: Id)
    requires IsTree(tr) && Below(tr, t, n) && t != n
    ensures d != MASTER && tr.up(d) == n && Below(tr, t, d)
    decreases tr.depth(t)
  {
    if tr.up(t) == n then t else ChildTowards(tr, tr.up(t), n)
  }

  /** The neighbour of `n` towards `t`. */
  ghost function Next(tr: Tree, n: Id, t: Id): Id
    requires IsTree(tr) && n != t
  {
    if Below(tr, t, n) then ChildTowards(tr, t, n) else tr.up(n)
  }

  /** The path from `n` to `t`: up while `t` is not below, then down. */
  ghost function TreePath(tr: Tree, n: Id, t: Id): seq<Id>
    requires IsTree(tr) && Below(tr, t, MASTER)
    decreases !Below(tr, t, n), if Below(tr, t, n) then tr.depth(t) - tr.depth(n) else tr.depth(n)
  {
    if n == t then [n]
    else
      assert Below(tr, t, n) ==>
          0 < tr.depth(t) - tr.depth(ChildTowards(tr, t, n)) + 1 <= tr.depth(t) - tr.depth(n) by {
        if Below(tr, t, n) { BelowDepth(tr, t, ChildTowards(tr, t, n)); }
      }
      [n] + TreePath(tr, Next(tr, n, t), t)
  }

  lemma {:induction false} AllBelowMaster(tr: Tree, tables: map<Id, Tables>, t: Id)
    requires IsTree(tr) && Exact(tr, tables) && t in tables
    ensures Below(tr, t, MASTER)
    decreases tr.depth(t)
  {
    if t != MASTER {
      AllBelowMaster(tr, tables, tr.up(t));
    }
  }

  /** With exact tables, the stream a context's messages must arrive on is the one towards it. */
  lemma StreamByIdIsNext(tr: Tree, tables: map<Id, Tables>, n: Id, t: Id)
    requires IsTree(tr) && Exact(tr, tables) && n in tables && t in tables && t != n
    ensures StreamById(tables[n], t) == Some(Next(tr, n, t))
    ensures t in tables[n].table ==> tables[n].table[t] == Next(tr, n, t)
    ensures Below(tr, t, n) ==> t in tables[n].table
    ensures !Below(tr, t, n) ==> n != MASTER && ParentStream(tables[n]) == Some(tr.up(n))
  {
    var s := tables[n];
    AllBelowMaster(tr, tables, t);
    assert n != MASTER ==> tr.up(n) in tables;
    if t in s.table && Some(t) != s.parent {
      var d := s.table[t];
      assert Below(tr, t, d) && d != MASTER && tr.up(d) == n;
      BelowUp(tr, t, d);
      SiblingsDisjoint(tr, t, d, ChildTowards(tr, t, n));
    } else if t in s.table && Below(tr, t, n) {
      BelowDepth(tr, t, n);
    }
  }

  /**
   The checks on a message from a neighbour, with exact tables: it passes exactly when the neighbour
   is the way to the authority it claims, and to its source.
   */
  lemma AcceptedIffFromThatSide(tr: Tree, tables: map<Id, Tables>, n: Id, from: Id, m: Packet, max: nat, mode: Mode)
    requires IsTree(tr) && Exact(tr, tables) && n in tables && m.src in tables && m.auth in tables
    requires m.src != n && m.auth != n && m.size <= max
    ensures var v := Decide(n, tables[n], Some(from), m, max, mode);
            (v != BadAuth && v != BadSrc) <==>
              from == Next(tr, n, m.auth) && (m.src == m.auth || from == Next(tr, n, m.src))
  {
    hide Exact, Below, Next, StreamById, ParentStream;
    StreamByIdIsNext(tr, tables, n, m.auth);
    StreamByIdIsNext(tr, tables, n, m.src);
  }

  /** `n` is on the path from `src` to `dst`, reached from the side of `src`. */
  ghost predicate OnTheWay(tr: Tree, n: Id, from: Option<Id>, src: Id, dst: Id)
    requires IsTree(tr)
  {
    if n == src then from.None?
    else
      && from == Some(Next(tr, n, src))
      && (Below(tr, src, n) && Below(tr, dst, n) && dst != n ==> ChildTowards(tr, dst, n) != ChildTowards(tr, src, n))
      && (Below(tr, src, n) || Below(tr, dst, n))
  }

  lemma StaysOnTheWay(tr: Tree, n: Id, from: Option<Id>, src: Id, dst: Id)
    requires IsTree(tr) && OnTheWay(tr, n, from, src, dst) && n != dst
    requires Below(tr, src, MASTER) && Below(tr, dst, MASTER)
    ensures OnTheWay(tr, Next(tr, n, dst), Some(n), src, dst)
  {
    var n' := Next(tr, n, dst);
    if Below(tr, dst, n) {
      if Below(tr, src, n') {
        if src == n {
          BelowDepth(tr, n, n');
        } else {
          BelowUp(tr, src, n');
          SiblingsDisjoint(tr, src, n', ChildTowards(tr, src, n));
        }
      }
      assert n' != src;
    } else {
      assert n != MASTER && Below(tr, src, n);
      BelowUp(tr, src, n);
      BelowDepth(tr, src, n);
      if n' == src {
        BelowDepth(tr, n', n);
      }
      SiblingsDisjoint(tr, src, n, ChildTowards(tr, src, n'));
    }
  }

  /** One hop: the next context on the tree path, and its checks will pass again. */
  lemma ForwardsTowards(tr: Tree, tables: map<Id, Tables>, n: Id, from: Option<Id>, m: Packet, max: nat, mode: Mode)
    requires IsTree(tr) && Exact(tr, tables) && n in tables && m.src in tables && m.dst in tables
    requires m.auth == m.src && m.size <= max && OnTheWay(tr, n, from, m.src, m.dst)
    ensures Decide(n, tables[n], from, m, max, mode) ==
      if n == m.dst then Invoke
      else if mode.Allows(from, Next(tr, n, m.dst)) then Forward(Next(tr, n, m.dst)) else OneWayOnly
  {
    hide Exact, ChildTowards, StreamById, ParentStream;
    if n != m.src {
      StreamByIdIsNext(tr, tables, n, m.src);
    }
    if n != m.dst {
      StreamByIdIsNext(tr, tables, n, m.dst);
      SidesDiffer(tr, n);
    }
  }

  lemma SidesDiffer(tr: Tree, n: Id)
    requires IsTree(tr)
    ensures n != MASTER ==> forall d {:trigger tr.up(d)} :: d != MASTER && tr.up(d) == n ==> d != tr.up(n)
  {
    if n != MASTER {
      assert tr.depth(tr.up(n)) < tr.depth(n);
    }
  }

  lemma {:induction false} ChildInTables(tr: Tree, tables: map<Id, Tables>, t: Id, n: Id)
    requires IsTree(tr) && Exact(tr, tables) && t in tables && Below(tr, t, n) && t != n
    ensures ChildTowards(tr, t, n) in tables
    decreases tr.depth(t)
  {
    if tr.up(t) != n {
      ChildInTables(tr, tables, tr.up(t), n);
    }
  }

  lemma NextInTables(tr: Tree, tables: map<Id, Tables>, n: Id, t: Id)
    requires IsTree(tr) && Exact(tr, tables) && n in tables && t in tables && t != n
    ensures Next(tr, n, t) in tables
  {
    AllBelowMaster(tr, tables, t);
    if Below(tr, t, n) {
      ChildInTables(tr, tables, t, n);
    }
  }

  function Unchanging(tables: map<Id, Tables>): Tabling
  {
    k => tables
  }

  /** One context is the other, or an ancestor of it. */
  ghost predicate Related(tr: Tree, a: Id, b: Id)
    requires IsTree(tr)
  {
    Below(tr, a, b) || Below(tr, b, a)
  }

  /** On the way between two of which one is an ancestor of the other, one stream is always the parent's. */
  lemma RelatedMayPass(tr: Tree, n: Id, from: Option<Id>, src: Id, dst: Id, oneWay: bool)
    requires IsTree(tr) && OnTheWay(tr, n, from, src, dst) && n != dst && Related(tr, src, dst)
    requires Below(tr, src, MASTER) && Below(tr, dst, MASTER)
    ensures ModeAt(tr, n, oneWay).Allows(from, Next(tr, n, dst))
  {
    if n != src && Below(tr, src, n) && Below(tr, dst, n) {
      var a, b := ChildTowards(tr, src, n), ChildTowards(tr, dst, n);
      if Below(tr, src, dst) {
        BelowVia(tr, src, dst, b);
        SiblingsDisjoint(tr, src, a, b);
      } else {
        BelowVia(tr, dst, src, a);
        SiblingsDisjoint(tr, dst, a, b);
      }
    } else {
      assert n != src ==> n != MASTER;
    }
  }

  lemma {:induction false} BelowVia(tr: Tree, t: Id, d: Id, e: Id)
    requires IsTree(tr) && Below(tr, t, d) && Below(tr, d, e)
    ensures Below(tr, t, e)
    decreases tr.depth(t)
  {
    if t != d {
      BelowVia(tr, tr.up(t), d, e);
    }
  }

  /**
   With exact tables a message between any two contexts follows the tree path, passes the checks at
   every hop and is handed to a handler of its destination; with unidirectional routing, between any two of
   which one is an ancestor of the other.
   */
  lemma {:induction false} FollowsTreePath(
    tr: Tree, tables: map<Id, Tables>, height: nat, k: nat, n: Id, from: Option<Id>, m: Packet, max: nat, oneWay: bool)
    requires IsTree(tr) && Exact(tr, tables) && AllSane(tr, Unchanging(tables), height)
    requires n in tables && m.src in tables && m.dst in tables
    requires m.auth == m.src && m.size <= max && OnTheWay(tr, n, from, m.src, m.dst)
    requires Downward(tr, n, from) ==> m.dst != tr.up(n)
    requires oneWay ==> Related(tr, m.src, m.dst)
    ensures Below(tr, m.dst, MASTER)
    ensures Travel(tr, Unchanging(tables), height, k, n, from, m, max, oneWay) ==
      Journey(TreePath(tr, n, m.dst), Ended(Invoke))
    decreases HopsLeft(tr, n, from, height)
  {
    hide Decide, Exact, OnTheWay, Falls, Next, Below, Related;
    assert n in Unchanging(tables)(k);
    AllBelowMaster(tr, tables, m.dst);
    AllBelowMaster(tr, tables, m.src);
    ForwardsTowards(tr, tables, n, from, m, max, ModeAt(tr, n, oneWay));
    if n != m.dst {
      var next := Next(tr, n, m.dst);
      if oneWay {
        RelatedMayPass(tr, n, from, m.src, m.dst, oneWay);
      }
      HopsFall(tr, tables[n], n, from, m, max, height, ModeAt(tr, n, oneWay));
      StaysOnTheWay(tr, n, from, m.src, m.dst);
      FallsGives(tr, n, from, next, m, height);
      NextInTables(tr, tables, n, m.dst);
      assert next in Unchanging(tables)(k + 1);
      FollowsTreePath(tr, tables, height, k + 1, next, Some(n), m, max, oneWay);
    }
  }

  /**
   With unidirectional routing a message between two contexts of which neither is an ancestor of the other is
   refused, by an ancestor of both.
   */
  lemma {:induction false} UnrelatedIsRefused(
    tr: Tree, tables: map<Id, Tables>, height: nat, k: nat, n: Id, from: Option<Id>, m: Packet, max: nat)
    requires IsTree(tr) && Exact(tr, tables) && AllSane(tr, Unchanging(tables), height)
    requires n in tables && m.src in tables && m.dst in tables
    requires m.auth == m.src && m.size <= max && OnTheWay(tr, n, from, m.src, m.dst)
    requires !Related(tr, m.src, m.dst) && Below(tr, m.src, n) && !Downward(tr, n, from)
    ensures var j := Travel(tr, Unchanging(tables), height, k, n, from, m, max, true);
            && j.ending == Ended(OneWayOnly)
            && Below(tr, m.src, j.visited[|j.visited| - 1]) && Below(tr, m.dst, j.visited[|j.visited| - 1])
    decreases tr.depth(n)
  {
    hide Decide, Exact, OnTheWay, Falls, Below;
    assert n in Unchanging(tables)(k);
    AllBelowMaster(tr, tables, m.dst);
    AllBelowMaster(tr, tables, m.src);
    ForwardsTowards(tr, tables, n, from, m, max, ModeAt(tr, n, true));
    var next := Next(tr, n, m.dst);
    if Below(tr, m.dst, n) {
      UnrelatedMayNotPass(tr, n, from, m.src, m.dst);
    } else {
      HopsFall(tr, tables[n], n, from, m, max, height, ModeAt(tr, n, true));
      StaysOnTheWay(tr, n, from, m.src, m.dst);
      BelowUp(tr, m.src, n);
      SidesDiffer(tr, n);
      NextInTables(tr, tables, n, m.dst);
      assert next in Unchanging(tables)(k + 1);
      UnrelatedIsRefused(tr, tables, height, k + 1, next, Some(n), m, max);
    }
  }

  lemma UnrelatedMayNotPass(tr: Tree, n: Id, from: Option<Id>, src: Id, dst: Id)
    requires IsTree(tr) && OnTheWay(tr, n, from, src, dst) && !Related(tr, src, dst)
    requires Below(tr, src, n) && Below(tr, dst, n)
    ensures n != dst && !ModeAt(tr, n, true).Allows(from, Next(tr, n, dst))
  {
    SidesDiffer(tr, n);
  }

  /** The contexts from which every link up to the master is up. */
  ghost predicate Attached(tr: Tree, net: RouteNetwork.Net, n: Id)
    requires IsTree(tr)
  {
    n in net.nodes && RouteNetwork.Connected(tr, net, n, MASTER)
  }

  ghost function AttachedTables(tr: Tree, net: RouteNetwork.Net): map<Id, Tables>
    requires IsTree(tr)
  {
    map n | n in net.nodes && Attached(tr, net, n) :: net.nodes[n].tables
  }

  /** In a quiet network the tables of the contexts that are attached are exact, whatever was lost before. */
  lemma QuietMeansExact(tr: Tree, net: RouteNetwork.Net)
    requires IsTree(tr) && RouteNetwork.Reachable(tr, net) && RouteNetwork.Quiet(net)
    ensures Exact(tr, AttachedTables(tr, net))
  {
    hide RouteNetwork.Reachable, RouteNetwork.Quiet, Below, RouteNetwork.Connected, Sane;
    var tables := AttachedTables(tr, net);
    AttachedUpward(tr, net);
    forall n | n in tables ensures Sane(tr, n, tables[n]) {
      ReachableTablesAreSane(tr, net, n);
    }
    forall n, t | n in tables && t in tables[n].table && Some(t) != tables[n].parent
      ensures Below(tr, t, tables[n].table[t])
    {
      QuietEntryIsBelow(tr, net, n, t);
    }
    forall n, t | n in tables && t in tables && t != n && Below(tr, t, n) ensures t in tables[n].table {
      QuietTableHolds(tr, net, n, t);
    }
  }

  lemma AttachedUpward(tr: Tree, net: RouteNetwork.Net)
    requires IsTree(tr) && RouteNetwork.Reachable(tr, net) && RouteNetwork.Quiet(net)
    ensures Attached(tr, net, MASTER)
    ensures forall n {:trigger tr.up(n)} :: Attached(tr, net, n) && n != MASTER ==>
      Attached(tr, net, tr.up(n)) && tr.up(n) in net.nodes[n].tables.table
  {
    hide RouteNetwork.Reachable, RouteNetwork.Inv;
    RouteNetwork.ReachableInv(tr, net);
    NetDomain(tr, net);
    forall n {:trigger tr.up(n)} | Attached(tr, net, n) && n != MASTER
      ensures Attached(tr, net, tr.up(n)) && tr.up(n) in net.nodes[n].tables.table
    {
      assert RouteNetwork.Live(net, n);
      RouteNetwork.NodeAt(tr, net, n);
    }
  }

  lemma QuietEntryIsBelow(tr: Tree, net: RouteNetwork.Net, n: Id, t: Id)
    requires IsTree(tr) && RouteNetwork.Reachable(tr, net) && RouteNetwork.Quiet(net)
    requires n in net.nodes && t in net.nodes[n].tables.table && Some(t) != net.nodes[n].tables.parent
    ensures Below(tr, t, net.nodes[n].tables.table[t])
  {
    hide RouteNetwork.Reachable, RouteNetwork.Inv, RouteNetwork.Quiet, Below, RouteNetwork.Connected;
    RouteNetwork.ReachableInv(tr, net);
    RouteNetwork.NodeAt(tr, net, n);
    RouteNetwork.QuietTablesAreExact(tr, net, n, t);
    ConnectedIsBelow(tr, net, t, net.nodes[n].tables.table[t]);
  }

  lemma QuietTableHolds(tr: Tree, net: RouteNetwork.Net, n: Id, t: Id)
    requires IsTree(tr) && RouteNetwork.Reachable(tr, net) && RouteNetwork.Quiet(net)
    requires n in net.nodes && Attached(tr, net, t) && t != n && Below(tr, t, n)
    ensures t in net.nodes[n].tables.table
  {
    hide RouteNetwork.Reachable, RouteNetwork.Inv, Below, RouteNetwork.Connected;
    RouteNetwork.ReachableInv(tr, net);
    AttachedIsConnected(tr, net, t, n);
    var e := RouteNetwork.StepTowards(tr, net, t, n);
    BelowDepth(tr, t, n);
    SidesDiffer(tr, n);
    RouteNetwork.QuietTablesAreExact(tr, net, n, t);
  }

  lemma NetDomain(tr: Tree, net: RouteNetwork.Net)
    requires IsTree(tr) && RouteNetwork.Inv(tr, net)
    ensures MASTER in net.nodes
    ensures forall n {:trigger tr.up(n)} :: n in net.nodes && n != MASTER ==> tr.up(n) in net.nodes
  {
  }

  lemma {:induction false} ConnectedIsBelow(tr: Tree, net: RouteNetwork.Net, t: Id, d: Id)
    requires IsTree(tr) && RouteNetwork.Connected(tr, net, t, d)
    ensures Below(tr, t, d)
    decreases tr.depth(t)
  {
    if t != d {
      ConnectedIsBelow(tr, net, tr.up(t), d);
    }
  }

  /** What is attached is connected to everything above it. */
  lemma {:induction false} AttachedIsConnected(tr: Tree, net: RouteNetwork.Net, t: Id, d: Id)
    requires IsTree(tr) && RouteNetwork.Connected(tr, net, t, MASTER) && Below(tr, t, d)
    ensures RouteNetwork.Connected(tr, net, t, d)
    decreases tr.depth(t)
  {
    if t != d {
      AttachedIsConnected(tr, net, tr.up(t), d);
    }
  }

  /**
   The whole protocol: once routing has gone quiet, a message between any two attached contexts takes the
   tree path, is accepted at every hop and invoked at its destination.
   */
  lemma QuietNetworkDelivers(tr: Tree, net: RouteNetwork.Net, height: nat, m: Packet, max: nat)
    requires IsTree(tr) && RouteNetwork.Reachable(tr, net) && RouteNetwork.Quiet(net)
    requires forall n :: Attached(tr, net, n) ==> tr.depth(n) <= height
    requires Attached(tr, net, m.src) && Attached(tr, net, m.dst) && m.auth == m.src && m.size <= max
    ensures var tables := AttachedTables(tr, net);
            && AllSane(tr, Unchanging(tables), height) && Below(tr, m.dst, MASTER)
            && Travel(tr, Unchanging(tables), height, 0, m.src, None, m, max, false)
               == Journey(TreePath(tr, m.src, m.dst), Ended(Invoke))
  {
    hide RouteNetwork.Reachable, RouteNetwork.Quiet, Below, RouteNetwork.Connected;
    QuietMeansExact(tr, net);
    var tables := AttachedTables(tr, net);
    FollowsTreePath(tr, tables, height, 0, m.src, None, m, max, false);
  }

  /**
   Unidirectional routing partitions the tree as promised: in a quiet network a message arrives if and only if
   one of its two ends is an ancestor of the other.
   */
  lemma OneWayDeliversIffRelated(tr: Tree, net: RouteNetwork.Net, height: nat, m: Packet, max: nat)
    requires IsTree(tr) && RouteNetwork.Reachable(tr, net) && RouteNetwork.Quiet(net)
    requires forall n :: Attached(tr, net, n) ==> tr.depth(n) <= height
    requires Attached(tr, net, m.src) && Attached(tr, net, m.dst) && m.auth == m.src && m.size <= max
    ensures var tables := AttachedTables(tr, net);
            && AllSane(tr, Unchanging(tables), height) && Below(tr, m.dst, MASTER)
            && var j := Travel(tr, Unchanging(tables), height, 0, m.src, None, m, max, true);
               && (j.ending == Ended(Invoke) <==> Related(tr, m.src, m.dst))
               && (Related(tr, m.src, m.dst) ==> j.visited == TreePath(tr, m.src, m.dst))
               && (!Related(tr, m.src, m.dst) ==> j.ending == Ended(OneWayOnly))
  {
    hide RouteNetwork.Reachable, RouteNetwork.Quiet, RouteNetwork.Connected, Related;
    QuietMeansExact(tr, net);
    var tables := AttachedTables(tr, net);
    AllBelowMaster(tr, tables, m.dst);
    if Related(tr, m.src, m.dst) {
      FollowsTreePath(tr, tables, height, 0, m.src, None, m, max, true);
    } else {
      UnrelatedIsRefused(tr, tables, height, 0, m.src, None, m, max);
    }
  }

  // ---------------------------------------------------------------- dead messages

  /**
   `_maybe_send_dead` at context `self`: the dead message that a failure to deliver `m` produces, whose
   data is a reason of the given length.
   */
  function DeadLetter(self: Id, unreachable: bool, m: Packet, reason: nat): Option<Packet>
  {
    if m.replyTo != 0 && !m.IsDead() then Some(Packet(m.src, self, self, m.replyTo, IS_DEAD, reason))
    else if !unreachable then Some(Packet(m.dst, self, self, m.handle, IS_DEAD, reason))
    else None
  }

  /** The lengths of the reasons for a message that is too large, has no route, or may not go that way. */
  datatype Texts = Texts(large: nat, lost: nat, oneWay: nat)

  /** What a context sends after a verdict. The refusals for a wrong stream send nothing. */
  function Response(self: Id, v: Verdict, m: Packet, texts: Texts): Option<Packet>
  {
    match v
    case TooLarge => DeadLetter(self, false, m, texts.large)
    case NoRoute => DeadLetter(self, true, m, texts.lost)
    case OneWayOnly => DeadLetter(self, true, m, texts.oneWay)
    case _ => None
  }

  /** The dead message that `m`, having arrived on `from`, leads to at `self` after `n` rounds. */
  function Echo(self: Id, s: Tables, from: Option<Id>, m: Packet, max: nat, mode: Mode, texts: Texts, n: nat)
    : Option<Packet>
  {
    if n == 0 then Some(m)
    else
      var prev := Echo(self, s, from, m, max, mode, texts, n - 1);
      if prev.None? then None
      else Response(self, Decide(self, s, if n == 1 then from else None, prev.value, max, mode), prev.value, texts)
  }

  /**
   A dead message produces another exactly when it is larger than the largest message allowed, wherever it
   comes from: being refused for anything else, by the routing or by the checks of a handler, never does.
   And there is no end to it exactly when the text of that refusal is too large as well.
   */
  lemma DeadMessagesStopIffTheyFit(
    self: Id, s: Tables, from: Option<Id>, m: Packet, max: nat, mode: Mode, texts: Texts)
    requires m.IsDead()
    ensures DeadLetter(self, true, m, texts.lost) == None
    ensures Response(self, Decide(self, s, from, m, max, mode), m, texts).Some? <==> m.size > max
    ensures (forall n: nat :: Echo(self, s, from, m, max, mode, texts, n).Some?) <==> m.size > max && texts.large > max
  {
    if m.size > max && texts.large > max {
      forall n: nat ensures Echo(self, s, from, m, max, mode, texts, n).Some? {
        Echoes(self, s, from, m, max, mode, texts, n);
      }
    } else {
      var n := EchoStops(self, s, from, m, max, mode, texts);
      assert !Echo(self, s, from, m, max, mode, texts, n).Some?;
    }
  }

  lemma EchoStops(self: Id, s: Tables, from: Option<Id>, m: Packet, max: nat, mode: Mode, texts: Texts)
    returns (n: nat)
    requires m.IsDead() && (m.size <= max || texts.large <= max)
    ensures Echo(self, s, from, m, max, mode, texts, n) == None
  {
    n := 2;
    assert Echo(self, s, from, m, max, mode, texts, 0) == Some(m);
    var once := Echo(self, s, from, m, max, mode, texts, 1);
    assert m.size > max ==> once.Some? && once.value.IsDead() && once.value.size == texts.large;
  }

  lemma {:induction false} Echoes(
    self: Id, s: Tables, from: Option<Id>, m: Packet, max: nat, mode: Mode, texts: Texts, n: nat)
    requires m.IsDead() && m.size > max && texts.large > max
    ensures var e := Echo(self, s, from, m, max, mode, texts, n);
            && e.Some? && e.value.IsDead() && e.value.size > max
            && e.value.dst == m.dst && e.value.handle == m.handle
  {
    if n > 0 {
      Echoes(self, s, from, m, max, mode, texts, n - 1);
    }
  }

  // ---------------------------------------------------------------- failures are reported

  /** One that arrives from the wrong side is dropped, and nobody is told. */
  lemma SpoofedIsDropped(
    tr: Tree, tables: map<Id, Tables>, n: Id, from: Id, m: Packet, max: nat, mode: Mode, texts: Texts)
    requires IsTree(tr) && Exact(tr, tables) && n in tables && m.src in tables && m.auth in tables
    requires m.src != n && m.auth != n && m.size <= max
    requires from != Next(tr, n, m.auth) || (m.src != m.auth && from != Next(tr, n, m.src))
    ensures Response(n, Decide(n, tables[n], Some(from), m, max, mode), m, texts) == None
  {
    hide Exact, Below, Next, StreamById, ParentStream;
    AcceptedIffFromThatSide(tr, tables, n, from, m, max, mode);
  }

  /** A message for a context that nobody knows goes up to the master, which has no route for it. */
  lemma {:induction false} UnknownIsRefused(
    tr: Tree, tables: map<Id, Tables>, height: nat, k: nat, n: Id, from: Option<Id>, m: Packet, max: nat, oneWay: bool)
    requires IsTree(tr) && Exact(tr, tables) && AllSane(tr, Unchanging(tables), height)
    requires n in tables && m.src in tables && m.dst !in tables && forall x :: x in tables ==> m.dst !in tables[x].table
    requires m.auth == m.src && m.size <= max && OnTheWay(tr, n, from, m.src, MASTER) && Below(tr, m.src, n)
    requires !Downward(tr, n, from)
    ensures var j := Travel(tr, Unchanging(tables), height, k, n, from, m, max, oneWay);
            j.ending == Ended(NoRoute) && j.visited[|j.visited| - 1] == MASTER
    decreases tr.depth(n)
  {
    hide Exact, OnTheWay, Falls, Below, Next, StreamById, ParentStream;
    assert n in Unchanging(tables)(k);
    NoRouteFrom(tr, tables, n, from, m, max, ModeAt(tr, n, oneWay));
    if n != MASTER {
      HopsFall(tr, tables[n], n, from, m, max, height, ModeAt(tr, n, oneWay));
      UpTheWay(tr, tables, n, from, m.src);
      assert tr.up(n) in Unchanging(tables)(k + 1);
      UnknownIsRefused(tr, tables, height, k + 1, tr.up(n), Some(n), m, max, oneWay);
    }
  }

  lemma NoRouteFrom(tr: Tree, tables: map<Id, Tables>, n: Id, from: Option<Id>, m: Packet, max: nat, mode: Mode)
    requires IsTree(tr) && Exact(tr, tables) && n in tables && m.src in tables && m.dst !in tables
    requires m.dst !in tables[n].table && m.auth == m.src && m.size <= max
    requires OnTheWay(tr, n, from, m.src, MASTER) && Below(tr, m.src, n)
    requires n != MASTER ==> mode.Allows(from, tr.up(n))
    ensures Decide(n, tables[n], from, m, max, mode) == if n == MASTER then NoRoute else Forward(tr.up(n))
  {
    hide Exact, Below, StreamById, ParentStream, ChildTowards;
    SidesDiffer(tr, n);
    UplinkOf(tr, tables, n);
    if n != m.src {
      StreamByIdIsNext(tr, tables, n, m.src);
    }
  }

  lemma UplinkOf(tr: Tree, tables: map<Id, Tables>, n: Id)
    requires IsTree(tr) && Exact(tr, tables) && n in tables
    ensures ParentStream(tables[n]) == if n == MASTER then None else Some(tr.up(n))
    ensures n != MASTER ==> tr.up(n) in tables
  {
    assert Sane(tr, n, tables[n]);
    assert n != MASTER ==> tr.up(n) in tables && tr.up(n) in tables[n].table;
  }

  lemma UpTheWay(tr: Tree, tables: map<Id, Tables>, n: Id, from: Option<Id>, src: Id)
    requires IsTree(tr) && Exact(tr, tables) && n in tables && src in tables && n != MASTER
    requires OnTheWay(tr, n, from, src, MASTER) && Below(tr, src, n)
    ensures OnTheWay(tr, tr.up(n), Some(n), src, MASTER) && Below(tr, src, tr.up(n)) && tr.up(n) in tables
    ensures !Downward(tr, tr.up(n), Some(n))
  {
    hide Exact;
    AllBelowMaster(tr, tables, src);
    BelowUp(tr, src, n);
    UplinkOf(tr, tables, n);
    MasterIsAbove(tr, n);
    StaysOnTheWay(tr, n, from, src, MASTER);
    SidesDiffer(tr, tr.up(n));
  }

  lemma MasterIsAbove(tr: Tree, n: Id)
    requires IsTree(tr) && n != MASTER
    ensures Below(tr, MASTER, MASTER) && !Below(tr, MASTER, n)
  {
  }

  /**
   The dead message about `m`, from wherever `m` failed, is addressed to the sender of `m`, to the handle on which
   it expects the reply, and arrives there; with unidirectional routing from its ancestors and descendants.
   */
  lemma DeadLetterArrives(
    tr: Tree, tables: map<Id, Tables>, height: nat, n: Id, m: Packet, unreachable: bool, reason: nat, max: nat,
    oneWay: bool)
    requires IsTree(tr) && Exact(tr, tables) && AllSane(tr, Unchanging(tables), height)
    requires n in tables && m.src in tables && m.replyTo != 0 && !m.IsDead() && reason <= max
    requires oneWay ==> Related(tr, n, m.src)
    ensures Below(tr, m.src, MASTER) && n in Unchanging(tables)(0)
    ensures var d := DeadLetter(n, unreachable, m, reason);
            && d.Some? && d.value.IsDead() && d.value.src == n
            && d.value.dst == m.src && d.value.handle == m.replyTo
            && Travel(tr, Unchanging(tables), height, 0, n, None, d.value, max, oneWay)
               == Journey(TreePath(tr, n, m.src), Ended(Invoke))
  {
    hide Exact, Related;
    var d := DeadLetter(n, unreachable, m, reason).value;
    FollowsTreePath(tr, tables, height, 0, n, None, d, max, oneWay);
  }

  /**
   A message without a return address is taken for a reply. If it is too large, whoever waits for it gets a dead
   message in its place, on the same handle; and any other failure is told to nobody.
   */
  lemma WaiterIsTold(
    tr: Tree, tables: map<Id, Tables>, height: nat, n: Id, m: Packet, v: Verdict, texts: Texts, max: nat, oneWay: bool)
    requires IsTree(tr) && Exact(tr, tables) && AllSane(tr, Unchanging(tables), height)
    requires n in tables && m.dst in tables && m.replyTo == 0 && texts.large <= max
    requires oneWay ==> Related(tr, n, m.dst)
    ensures v != TooLarge ==> Response(n, v, m, texts) == None
    ensures n in Unchanging(tables)(0) && Below(tr, m.dst, MASTER)
    ensures var d := Response(n, TooLarge, m, texts);
            && d.Some? && d.value.IsDead() && d.value.src == n
            && d.value.dst == m.dst && d.value.handle == m.handle
            && Travel(tr, Unchanging(tables), height, 0, n, None, d.value, max, oneWay)
               == Journey(TreePath(tr, n, m.dst), Ended(Invoke))
  {
    hide Exact, Related;
    FollowsTreePath(tr, tables, height, 0, n, None, Response(n, TooLarge, m, texts).value, max, oneWay);
  }

  /** The sender of a message that ended with this verdict at `n` gets a dead message on its reply handle. */
  ghost predicate Reported(
    tr: Tree, tables: map<Id, Tables>, height: nat, n: Id, v: Verdict, m: Packet, max: nat, oneWay: bool, texts: Texts)
    requires IsTree(tr) && AllSane(tr, Unchanging(tables), height) && n in tables && Below(tr, m.src, MASTER)
  {
    assert n in Unchanging(tables)(0);
    var d := Response(n, v, m, texts);
    && d.Some? && d.value.IsDead() && d.value.dst == m.src && d.value.handle == m.replyTo
    && Travel(tr, Unchanging(tables), height, 0, n, None, d.value, max, oneWay)
       == Journey(TreePath(tr, n, m.src), Ended(Invoke))
  }

  /**
   In a quiet network a message that expects a reply is never lost without a word: it is delivered exactly if it
   is not too large, its destination is attached, and, with unidirectional routing, is an ancestor or a descendant.
   If not, its sender gets a dead message on the handle for the reply, provided that the text of that one fits.
   */
  lemma DeliveredOrReported(
    tr: Tree, net: RouteNetwork.Net, height: nat, m: Packet, max: nat, oneWay: bool, texts: Texts)
    requires IsTree(tr) && RouteNetwork.Reachable(tr, net) && RouteNetwork.Quiet(net)
    requires forall n :: Attached(tr, net, n) ==> tr.depth(n) <= height
    requires Attached(tr, net, m.src) && m.auth == m.src && m.replyTo != 0 && !m.IsDead()
    requires texts.large <= max && texts.lost <= max && texts.oneWay <= max
    ensures var tables := AttachedTables(tr, net);
            && AllSane(tr, Unchanging(tables), height) && Below(tr, m.src, MASTER)
            && m.src in Unchanging(tables)(0)
            && var j := Travel(tr, Unchanging(tables), height, 0, m.src, None, m, max, oneWay);
            var z := j.visited[|j.visited| - 1];
            && (j.ending == Ended(Invoke) <==>
                  m.size <= max && Attached(tr, net, m.dst) && (oneWay ==> Related(tr, m.src, m.dst)))
            && (j.ending != Ended(Invoke) ==>
                  z in tables && j.ending.Ended?
                  && Reported(tr, tables, height, z, j.ending.verdict, m, max, oneWay, texts))
  {
    hide RouteNetwork.Reachable, RouteNetwork.Quiet, RouteNetwork.Connected, Exact, Related, Travel, AllSane;
    hide TreePath, Below;
    QuietMeansExact(tr, net);
    var tables := AttachedTables(tr, net);
    AllBelowMaster(tr, tables, m.src);
    AttachedAreSane(tr, net, height);
    FailsAt(tr, net, height, m, max, oneWay);
    var j := Travel(tr, Unchanging(tables), height, 0, m.src, None, m, max, oneWay);
    var z := j.visited[|j.visited| - 1];
    if j.ending != Ended(Invoke) {
      var v := j.ending.verdict;
      var reason := if v.TooLarge? then texts.large else if v.NoRoute? then texts.lost else texts.oneWay;
      DeadLetterArrives(tr, tables, height, z, m, !v.TooLarge?, reason, max, oneWay);
    }
  }

  lemma AttachedAreSane(tr: Tree, net: RouteNetwork.Net, height: nat)
    requires IsTree(tr) && Exact(tr, AttachedTables(tr, net))
    requires forall n :: Attached(tr, net, n) ==> tr.depth(n) <= height
    ensures AllSane(tr, Unchanging(AttachedTables(tr, net)), height)
  {
  }

  /** Where a message ends that is not delivered: at its sender, or at an ancestor of it. */
  ghost predicate FailsAbove(
    tr: Tree, tables: map<Id, Tables>, height: nat, m: Packet, max: nat, oneWay: bool)
    requires IsTree(tr) && AllSane(tr, Unchanging(tables), height) && m.src in tables
  {
    assert m.src in Unchanging(tables)(0);
    var j := Travel(tr, Unchanging(tables), height, 0, m.src, None, m, max, oneWay);
    var z := j.visited[|j.visited| - 1];
    z in tables && Related(tr, z, m.src) && j.ending in {Ended(TooLarge), Ended(NoRoute), Ended(OneWayOnly)}
  }

  lemma TooLargeFails(tr: Tree, tables: map<Id, Tables>, height: nat, m: Packet, max: nat, oneWay: bool)
    requires IsTree(tr) && AllSane(tr, Unchanging(tables), height) && m.src in tables && m.size > max
    ensures FailsAbove(tr, tables, height, m, max, oneWay)
  {
    hide AllSane;
    assert m.src in Unchanging(tables)(0);
    assert Decide(m.src, tables[m.src], None, m, max, ModeAt(tr, m.src, oneWay)) == TooLarge;
  }

  lemma UnattachedFails(tr: Tree, net: RouteNetwork.Net, height: nat, m: Packet, max: nat, oneWay: bool)
    requires IsTree(tr) && RouteNetwork.Reachable(tr, net) && RouteNetwork.Quiet(net)
    requires Exact(tr, AttachedTables(tr, net)) && AllSane(tr, Unchanging(AttachedTables(tr, net)), height)
    requires Attached(tr, net, m.src) && m.auth == m.src && m.size <= max && !Attached(tr, net, m.dst)
    ensures FailsAbove(tr, AttachedTables(tr, net), height, m, max, oneWay)
  {
    hide RouteNetwork.Reachable, RouteNetwork.Quiet, RouteNetwork.Connected, Exact, AllSane, Related, Below, Travel;
    var tables := AttachedTables(tr, net);
    AllBelowMaster(tr, tables, m.src);
    AboveIsRelated(tr, m.src, m.src);
    KnownAreAttached(tr, net, m.dst);
    MasterIn(tr, tables);
    AboveIsRelated(tr, MASTER, m.src);
    UnknownIsRefused(tr, tables, height, 0, m.src, None, m, max, oneWay);
  }

  lemma UnrelatedFails(tr: Tree, tables: map<Id, Tables>, height: nat, m: Packet, max: nat)
    requires IsTree(tr) && Exact(tr, tables) && AllSane(tr, Unchanging(tables), height)
    requires m.src in tables && m.dst in tables && m.auth == m.src && m.size <= max && !Related(tr, m.src, m.dst)
    ensures FailsAbove(tr, tables, height, m, max, true)
  {
    hide Exact, AllSane, Related, Below, Travel;
    AllBelowMaster(tr, tables, m.src);
    AboveIsRelated(tr, m.src, m.src);
    assert m.src in Unchanging(tables)(0);
    UnrelatedIsRefused(tr, tables, height, 0, m.src, None, m, max);
    var j := Travel(tr, Unchanging(tables), height, 0, m.src, None, m, max, true);
    VisitsTables(tr, tables, height, 0, m.src, None, m, max, true);
    AboveIsRelated(tr, j.visited[|j.visited| - 1], m.src);
  }

  lemma FailsAt(tr: Tree, net: RouteNetwork.Net, height: nat, m: Packet, max: nat, oneWay: bool)
    requires IsTree(tr) && RouteNetwork.Reachable(tr, net) && RouteNetwork.Quiet(net)
    requires Exact(tr, AttachedTables(tr, net)) && AllSane(tr, Unchanging(AttachedTables(tr, net)), height)
    requires Attached(tr, net, m.src) && m.auth == m.src
    ensures var tables := AttachedTables(tr, net);
            if m.size <= max && Attached(tr, net, m.dst) && (oneWay ==> Related(tr, m.src, m.dst)) then
              && m.src in Unchanging(tables)(0)
              && Travel(tr, Unchanging(tables), height, 0, m.src, None, m, max, oneWay).ending == Ended(Invoke)
            else FailsAbove(tr, tables, height, m, max, oneWay)
  {
    hide RouteNetwork.Reachable, RouteNetwork.Quiet, RouteNetwork.Connected, Exact, AllSane, Related, Below, FailsAbove;
    hide TreePath, Travel;
    var tables := AttachedTables(tr, net);
    if m.size > max {
      TooLargeFails(tr, tables, height, m, max, oneWay);
    } else if !Attached(tr, net, m.dst) {
      UnattachedFails(tr, net, height, m, max, oneWay);
    } else if oneWay && !Related(tr, m.src, m.dst) {
      UnrelatedFails(tr, tables, height, m, max);
    } else {
      assert m.src in Unchanging(tables)(0);
      AllBelowMaster(tr, tables, m.src);
      AboveIsRelated(tr, m.src, m.src);
      FollowsTreePath(tr, tables, height, 0, m.src, None, m, max, oneWay);
    }
  }

  lemma AboveIsRelated(tr: Tree, z: Id, n: Id)
    requires IsTree(tr)
    ensures Below(tr, n, z) ==> Related(tr, z, n)
    ensures Below(tr, n, n)
  {
  }

  lemma MasterIn(tr: Tree, tables: map<Id, Tables>)
    requires IsTree(tr) && Exact(tr, tables)
    ensures MASTER in tables
  {
  }

  /** In a quiet network attached contexts know no others. */
  lemma KnownAreAttached(tr: Tree, net: RouteNetwork.Net, t: Id)
    requires IsTree(tr) && RouteNetwork.Reachable(tr, net) && RouteNetwork.Quiet(net)
    ensures forall n :: Attached(tr, net, n) && t in net.nodes[n].tables.table ==> Attached(tr, net, t)
  {
    hide RouteNetwork.Reachable, RouteNetwork.Quiet, RouteNetwork.Connected;
    AttachedUpward(tr, net);
    forall n | Attached(tr, net, n) && t in net.nodes[n].tables.table ensures Attached(tr, net, t) {
      if n == MASTER || t != tr.up(n) {
        RouteNetwork.QuietTablesAreExact(tr, net, n, t);
        AttachedBelow(tr, net, t, net.nodes[n].tables.table[t]);
      }
    }
  }

  /** What is connected to a child of an attached context is attached. */
  lemma {:induction false} AttachedBelow(tr: Tree, net: RouteNetwork.Net, t: Id, d: Id)
    requires IsTree(tr) && RouteNetwork.Reachable(tr, net)
    requires RouteNetwork.Connected(tr, net, t, d) && d in net.up
    requires RouteNetwork.Connected(tr, net, tr.up(d), MASTER)
    ensures Attached(tr, net, t)
    decreases tr.depth(t)
  {
    hide RouteNetwork.Reachable, RouteNetwork.Inv;
    RouteNetwork.ReachableInv(tr, net);
    UpIsNode(tr, net);
    if t != d {
      AttachedBelow(tr, net, tr.up(t), d);
    }
  }

  lemma UpIsNode(tr: Tree, net: RouteNetwork.Net)
    requires IsTree(tr) && RouteNetwork.Inv(tr, net)
    ensures forall d :: d in net.up ==> d != MASTER && d in net.nodes
  {
  }

  lemma {:induction false} VisitsTables(
    tr: Tree, tables: map<Id, Tables>, height: nat, k: nat, n: Id, from: Option<Id>, m: Packet, max: nat, oneWay: bool)
    requires IsTree(tr) && AllSane(tr, Unchanging(tables), height) && n in tables
    requires Downward(tr, n, from) ==> m.dst != tr.up(n)
    ensures n in Unchanging(tables)(k)
    ensures var j := Travel(tr, Unchanging(tables), height, k, n, from, m, max, oneWay);
            forall x :: x in j.visited ==> x in tables
    decreases HopsLeft(tr, n, from, height)
  {
    hide Decide, Falls;
    assert n in Unchanging(tables)(k);
    var v := Decide(n, tables[n], from, m, max, ModeAt(tr, n, oneWay));
    if v.Forward? && v.stream in Unchanging(tables)(k + 1) {
      HopsFall(tr, tables[n], n, from, m, max, height, ModeAt(tr, n, oneWay));
      FallsGives(tr, n, from, v.stream, m, height);
      VisitsTables(tr, tables, height, k + 1, v.stream, Some(n), m, max, oneWay);
    }
  }
}
