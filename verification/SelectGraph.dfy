/**
 The membership graph of `Select`: `add` with its cycle check, `remove`, `size` and the notification
 that climbs from a receiver through the selects above it. Selects, receivers and latches are all
 `Member`s; the last two have no members of their own.
 */
module SelectGraph {
  import opened Seqs
  import opened SelectEvents

  /** The `_receivers` list of every node. */
  type Graph<T> = map<T, seq<T>>

  /** `rank` falls along every membership, so there is no cycle. */
  ghost predicate Layered<T>(g: Graph<T>, rank: map<T, nat>)
  {
    && rank.Keys == g.Keys
    && forall p, k {:trigger g[p][k]} :: p in g && 0 <= k < |g[p]| ==> g[p][k] in g && rank[g[p][k]] < rank[p]
  }

  /** `b` is `a`, or a member of it at some depth. */
  ghost predicate Reaches<T>(g: Graph<T>, rank: map<T, nat>, a: T, b: T)
    requires Layered(g, rank) && a in g
    decreases rank[a]
  {
    a == b || exists k :: 0 <= k < |g[a]| && Reaches(g, rank, g[a][k], b)
  }

  ghost predicate Above<T>(g: Graph<T>, p: T, m: T)
  {
    p in g && m in g[p]
  }

  /** Each node of the chain lists the next. */
  ghost predicate Chain<T>(g: Graph<T>, path: seq<T>)
  {
    path != [] && forall k :: 0 <= k < |path| - 1 ==> Above(g, path[k], path[k + 1])
  }

  ghost predicate ChainFrom<T>(g: Graph<T>, path: seq<T>, a: T, b: T)
  {
    Chain(g, path) && path[0] == a && path[|path| - 1] == b
  }

  lemma {:induction false} ReachesByChain<T>(g: Graph<T>, rank: map<T, nat>, a: T, b: T) returns (path: seq<T>)
    requires Layered(g, rank) && a in g && Reaches(g, rank, a, b)
    ensures ChainFrom(g, path, a, b)
    decreases rank[a]
  {
    path := [a];
    if a != b {
      var k :| 0 <= k < |g[a]| && Reaches(g, rank, g[a][k], b);
      var rest := ReachesByChain(g, rank, g[a][k], b);
      path := [a] + rest;
      assert forall i :: 1 <= i < |path| ==> path[i] == rest[i - 1];
    }
  }

  lemma {:induction false} ChainReaches<T>(g: Graph<T>, rank: map<T, nat>, path: seq<T>)
    requires Layered(g, rank) && Chain(g, path) && path[0] in g
    ensures Reaches(g, rank, path[0], path[|path| - 1])
    decreases |path|
  {
    if |path| > 1 {
      assert Above(g, path[0], path[1]);
      var k :| 0 <= k < |g[path[0]]| && g[path[0]][k] == path[1];
      ChainReaches(g, rank, path[1..]);
    }
  }

  /** In any ranking, what is reached lies below. */
  lemma {:induction false} ChainFalls<T>(g: Graph<T>, rank: map<T, nat>, path: seq<T>)
    requires Layered(g, rank) && Chain(g, path) && path[0] in g
    ensures path[|path| - 1] in g && rank[path[|path| - 1]] <= rank[path[0]]
    decreases |path|
  {
    if |path| > 1 {
      assert Above(g, path[0], path[1]);
      ChainFalls(g, rank, path[1..]);
    }
  }

  function Extended<T>(g: Graph<T>, p: T, m: T): Graph<T>
    requires p in g
  {
    g[p := g[p] + [m]]
  }

  /** Everything that reaches `p` is lifted over `m`. */
  ghost function Lifted<T>(g: Graph<T>, rank: map<T, nat>, p: T, m: T): map<T, nat>
    requires Layered(g, rank) && m in g
  {
    map n | n in g :: if Reaches(g, rank, n, p) then rank[n] + rank[m] + 1 else rank[n]
  }

  /** Where the cycle check passes, the graph stays free of cycles. */
  lemma AddKeepsLayered<T>(g: Graph<T>, rank: map<T, nat>, p: T, m: T)
    requires Layered(g, rank) && p in g && m in g && !Reaches(g, rank, m, p)
    ensures Layered(Extended(g, p, m), Lifted(g, rank, p, m))
  {
    var g', rank' := Extended(g, p, m), Lifted(g, rank, p, m);
    forall n, k {:trigger g'[n][k]} | n in g' && 0 <= k < |g'[n]| ensures g'[n][k] in g' && rank'[g'[n][k]] < rank'[n] {
      if k < |g[n]| {
        assert g'[n][k] == g[n][k];
        assert Reaches(g, rank, g[n][k], p) ==> Reaches(g, rank, n, p);
      }
    }
  }

  /** The cycle check refuses nothing else: a member that reaches the select would close a cycle. */
  lemma AddIsSafeIffUnreached<T(!new)>(g: Graph<T>, rank: map<T, nat>, p: T, m: T)
    requires Layered(g, rank) && p in g && m in g
    ensures (exists rank' :: Layered(Extended(g, p, m), rank')) <==> !exists path :: ChainFrom(g, path, m, p)
  {
    var g' := Extended(g, p, m);
    if Reaches(g, rank, m, p) {
      var path := ReachesByChain(g, rank, m, p);
      forall rank' ensures !Layered(g', rank') {
        if Layered(g', rank') {
          forall k | 0 <= k < |path| - 1 ensures Above(g', path[k], path[k + 1]) {
            assert Above(g, path[k], path[k + 1]);
          }
          assert g'[p][|g[p]|] == m;
          ChainFalls(g', rank', path);
        }
      }
    } else {
      AddKeepsLayered(g, rank, p, m);
      forall path ensures !ChainFrom(g, path, m, p) {
        if ChainFrom(g, path, m, p) {
          ChainReaches(g, rank, path);
        }
      }
    }
  }

  // ---------------------------------------------------------------- size

  /** `size()`: of a select, the sum over its members; of anything else, the items it holds. */
  ghost function SizeOf<T>(g: Graph<T>, rank: map<T, nat>, held: map<T, nat>, m: T): nat
    requires Layered(g, rank) && m in g && held.Keys <= g.Keys
    decreases rank[m], |g[m]| + 1
  {
    if m in held then held[m] else SumOf(g, rank, held, m, |g[m]|)
  }

  ghost function SumOf<T>(g: Graph<T>, rank: map<T, nat>, held: map<T, nat>, m: T, n: nat): nat
    requires Layered(g, rank) && m in g && held.Keys <= g.Keys && n <= |g[m]|
    decreases rank[m], n
  {
    if n == 0 then 0 else SumOf(g, rank, held, m, n - 1) + SizeOf(g, rank, held, g[m][n - 1])
  }

  /** Where each list holds, once each, the members that belong to the select, `size` counts every item once. */
  ghost predicate ListsMembers(g: Graph<Node>, held: map<Node, nat>, s: Sys)
  {
    && (forall p :: p in g ==> Distinct(g[p]))
    && (forall m :: m in s.notify ==> s.notify[m] in g)
    && (forall p, m :: p in g ==> (m in g[p] <==> m in s.notify && s.notify[m] == p))
    && (forall m :: m in held ==> m in g && g[m] == [] && held[m] == Count(s.items, IsF(m)))
    && (forall k :: 0 <= k < |s.items| ==> s.items[k] in held)
  }

  ghost predicate UnderOneOf(depth: Depth, par: map<Node, Node>,
      cs: seq<Node>, x: Node)
    requires Forest(depth, par)
  {
    exists c :: c in cs && Under(depth, par, x, c)
  }

  ghost function UnderOneOfF(depth: Depth, par: map<Node, Node>,
      cs: seq<Node>): Node -> bool
    requires Forest(depth, par)
  {
    (x: Node) => UnderOneOf(depth, par, cs, x)
  }

  /** What is under a node is the node or under one of its members. */
  lemma {:induction false} UnderThroughMember(
      g: Graph<Node>, held: map<Node, nat>, depth: Depth, s: Sys,
      p: Node, x: Node)
    requires Forest(depth, s.notify) && ListsMembers(g, held, s) && p in g
    ensures Under(depth, s.notify, x, p) <==> x == p || UnderOneOf(depth, s.notify, g[p], x)
    decreases depth(x)
  {
    if x in s.notify && x != p {
      UnderThroughMember(g, held, depth, s, p, s.notify[x]);
      if s.notify[x] == p {
        assert x in g[p] && Under(depth, s.notify, x, x);
      } else if UnderOneOf(depth, s.notify, g[p], x) {
        var c :| c in g[p] && Under(depth, s.notify, x, c);
        assert c != x;
        assert Under(depth, s.notify, s.notify[x], c);
      }
    }
  }

  /** Two members of one select have nothing in common under them. */
  lemma {:induction false} MembersApart(
      depth: Depth, par: map<Node, Node>,
      c: Node, d: Node, x: Node)
    requires Forest(depth, par) && c in par && d in par && par[c] == par[d]
    requires Under(depth, par, x, c) && Under(depth, par, x, d)
    ensures c == d
    decreases depth(x)
  {
    if c != d {
      if x == c {
        UnderIsDeeper(depth, par, par[c], d);
      } else if x == d {
        UnderIsDeeper(depth, par, par[d], c);
      } else {
        MembersApart(depth, par, c, d, par[x]);
      }
    }
  }

  lemma {:induction false} SizeCountsEachItemOnce(
      g: Graph<Node>, rank: map<Node, nat>, held: map<Node, nat>, depth: Depth, s: Sys, p: Node)
    requires Forest(depth, s.notify) && Layered(g, rank) && ListsMembers(g, held, s) && p in g
    ensures SizeOf(g, rank, held, p) == Size(depth, s, p)
    decreases rank[p], |g[p]| + 1
  {
    var f := UnderF(depth, s.notify, p);
    forall x | x in s.items ensures f(x) <==> x == p || UnderOneOf(depth, s.notify, g[p], x) {
      UnderThroughMember(g, held, depth, s, p, x);
    }
    hide Count, Under, UnderOneOf;
    if p in held {
      CountImplies(s.items, f, IsF(p));
      CountImplies(s.items, IsF(p), f);
    } else {
      SumCountsEachItemOnce(g, rank, held, depth, s, p, |g[p]|);
      assert g[p][..|g[p]|] == g[p];
      var h := UnderOneOfF(depth, s.notify, g[p]);
      CountImplies(s.items, f, h);
      CountImplies(s.items, h, f);
    }
  }

  /** What is under the first `n` members is under the first `n - 1` or under the last, and not both. */
  lemma LastMember(g: Graph<Node>, held: map<Node, nat>, depth: Depth, s: Sys, p: Node, n: nat)
    requires Forest(depth, s.notify) && ListsMembers(g, held, s) && p in g && 1 <= n <= |g[p]|
    ensures forall x :: UnderOneOf(depth, s.notify, g[p][..n], x) <==>
      UnderOneOf(depth, s.notify, g[p][..n - 1], x) || Under(depth, s.notify, x, g[p][n - 1])
    ensures var before, c := g[p][..n - 1], g[p][n - 1];
            forall x :: !(UnderOneOf(depth, s.notify, before, x) && Under(depth, s.notify, x, c))
  {
    hide Under;
    var c := g[p][n - 1];
    assert g[p][..n] == g[p][..n - 1] + [c];
    forall x ensures !(UnderOneOf(depth, s.notify, g[p][..n - 1], x) && Under(depth, s.notify, x, c)) {
      if UnderOneOf(depth, s.notify, g[p][..n - 1], x) && Under(depth, s.notify, x, c) {
        var d :| d in g[p][..n - 1] && Under(depth, s.notify, x, d);
        assert d in g[p] && c in g[p];
        MembersApart(depth, s.notify, c, d, x);
      }
    }
  }

  lemma {:induction false} SumCountsEachItemOnce(
      g: Graph<Node>, rank: map<Node, nat>, held: map<Node, nat>, depth: Depth, s: Sys, p: Node, n: nat)
    requires Forest(depth, s.notify) && Layered(g, rank) && ListsMembers(g, held, s) && p in g && n <= |g[p]|
    ensures SumOf(g, rank, held, p, n) == Count(s.items, UnderOneOfF(depth, s.notify, g[p][..n]))
    decreases rank[p], n
  {
    var h := UnderOneOfF(depth, s.notify, g[p][..n]);
    if n == 0 {
      CountNone(s.items, h);
    } else {
      var c := g[p][n - 1];
      SizeCountsEachItemOnce(g, rank, held, depth, s, c);
      SumCountsEachItemOnce(g, rank, held, depth, s, p, n - 1);
      var before, last := UnderOneOfF(depth, s.notify, g[p][..n - 1]), UnderF(depth, s.notify, c);
      LastMember(g, held, depth, s, p, n);
      hide Count, Under, UnderOneOf, SizeOf;
      CountEither(s.items, before, last, h);
    }
  }

  // ---------------------------------------------------------------- notification

  /** Each member's owner ranks above it. */
  ghost predicate Rising<T>(owner: map<T, T>, rank: map<T, nat>)
  {
    forall m :: m in owner ==> m in rank && owner[m] in rank && rank[m] < rank[owner[m]]
  }

  ghost function NotBelow<T>(rank: map<T, nat>, p: T): set<T>
    requires p in rank
  {
    set n | n in rank && rank[n] >= rank[p]
  }

  lemma OwnerIsHigher<T>(owner: map<T, T>, rank: map<T, nat>, p: T)
    requires Rising(owner, rank) && p in owner
    ensures NotBelow(rank, owner[p]) < NotBelow(rank, p)
  {
    assert p in NotBelow(rank, p) && p !in NotBelow(rank, owner[p]);
  }

  /** The tokens `_put(m)` on `p` leaves in the latch of `x`: every select on the way up names the one below it. */
  ghost function Climb<T>(owner: map<T, T>, rank: map<T, nat>, p: T, m: T, x: T): seq<T>
    requires Rising(owner, rank) && p in rank
    decreases NotBelow(rank, p)
  {
    (if x == p then [m] else []) +
    (if p in owner then OwnerIsHigher(owner, rank, p); Climb(owner, rank, owner[p], p, x) else [])
  }

  lemma ClimbStep<T>(owner: map<T, T>, rank: map<T, nat>, p: T, m: T, x: T, before: seq<T>)
    requires Rising(owner, rank) && p in rank
    ensures before + Climb(owner, rank, p, m, x) ==
      (if x == p then before + [m] else before) + (if p in owner then Climb(owner, rank, owner[p], p, x) else [])
  {
  }

  /** Each select above, and no other, gets one token, and it names the member of its own on the way there. */
  lemma {:induction false} ClimbReachesOwners<T>(owner: map<T, T>, rank: map<T, nat>, p: T, m: T, x: T)
    requires Rising(owner, rank) && p in rank
    ensures |Climb(owner, rank, p, m, x)| == if Owned(owner, rank, p, x) then 1 else 0
    ensures x == p ==> Climb(owner, rank, p, m, x) == [m]
    ensures Owned(owner, rank, p, x) && x != p ==>
      var c := Climb(owner, rank, p, m, x)[0]; c in owner && owner[c] == x && Owned(owner, rank, p, c)
    ensures rank.Keys >= {x} && rank[x] < rank[p] ==> !Owned(owner, rank, p, x)
    decreases NotBelow(rank, p)
  {
    if p in owner {
      OwnerIsHigher(owner, rank, p);
      ClimbReachesOwners(owner, rank, owner[p], p, x);
    }
  }

  /** `x` is `p` or an owner of it, at some remove. */
  ghost predicate Owned<T>(owner: map<T, T>, rank: map<T, nat>, p: T, x: T)
    requires Rising(owner, rank) && p in rank
    decreases NotBelow(rank, p)
  {
    x == p || (p in owner && (OwnerIsHigher(owner, rank, p); Owned(owner, rank, owner[p], x)))
  }

  ghost function Times<T>(s: seq<T>, n: nat): seq<T>
  {
    if n == 0 then [] else Times(s, n - 1) + s
  }

  lemma RemoveOne<T>(s: seq<T>, i: nat)
    requires i < |s|
    ensures multiset(RemoveAt(s, i)) == multiset(s) - multiset{s[i]}
    ensures forall x :: x in s && x != s[i] ==> x in RemoveAt(s, i)
    ensures forall x :: x in RemoveAt(s, i) ==> x in s
    ensures Distinct(s) ==> Distinct(RemoveAt(s, i)) && s[i] !in RemoveAt(s, i)
  {
    assert s == s[..i] + [s[i]] + s[i + 1..];
    forall x | x in s && x != s[i] ensures x in RemoveAt(s, i) {
      var k :| 0 <= k < |s| && s[k] == x;
      assert RemoveAt(s, i)[if k < i then k else k - 1] == x;
    }
  }

  // ---------------------------------------------------------------- taking tokens

  ghost predicate TokensKnown<T>(tokens: map<T, seq<T>>)
  {
    forall m, k :: m in tokens && 0 <= k < |tokens[m]| ==> tokens[m][k] in tokens
  }

  /** Each latch has lost some of its oldest tokens, and nothing else. */
  ghost predicate Shrunk<T>(was: map<T, seq<T>>, now: map<T, seq<T>>)
  {
    was.Keys == now.Keys && forall m :: m in was ==> |now[m]| <= |was[m]| && now[m] == was[m][|was[m]| - |now[m]|..]
  }

  /** The tokens in the latches, each with its owner and the number of newer tokens there. */
  ghost function Slots<T>(tokens: map<T, seq<T>>): set<(T, nat)>
  {
    set m, k: nat | m in tokens && k < |tokens[m]| :: (m, k)
  }

  ghost function TokenIn<T>(tokens: map<T, seq<T>>, slot: (T, nat)): T
    requires slot in Slots(tokens)
  {
    tokens[slot.0][|tokens[slot.0]| - 1 - slot.1]
  }

  /** Every token lost named a member of `idle`, apart from those in `route`. */
  ghost predicate DroppedFrom<T>(was: map<T, seq<T>>, now: map<T, seq<T>>, idle: set<T>, route: seq<(T, nat)>)
  {
    forall slot :: slot in Slots(was) && slot !in Slots(now) && slot !in route ==> TokenIn(was, slot) in idle
  }

  /** The tokens in `route` are lost: the first was held by `from`, each by what the one before named. */
  ghost predicate LedTo<T>(was: map<T, seq<T>>, now: map<T, seq<T>>, route: seq<(T, nat)>, from: T, to: T)
  {
    if route == [] then from == to
    else
      && route[0] in Slots(was) && route[0] !in Slots(now)
      && route[0].0 == from && LedTo(was, now, route[1..], TokenIn(was, route[0]), to)
  }

  /** Members with nothing to be had from them: `bare` are the selects without receivers. */
  ghost function Idle<T>(tokens: map<T, seq<T>>, held: map<T, nat>, bare: set<T>): set<T>
  {
    set m | m in tokens && m !in bare && if m in held then held[m] == 0 else tokens[m] == []
  }

  lemma ShrunkTwice<T>(a: map<T, seq<T>>, b: map<T, seq<T>>, c: map<T, seq<T>>)
    requires Shrunk(a, b) && Shrunk(b, c)
    ensures Shrunk(a, c) && Slots(c) <= Slots(b) <= Slots(a) && (TokensKnown(a) ==> TokensKnown(c))
    ensures forall slot :: slot in Slots(b) ==> TokenIn(a, slot) == TokenIn(b, slot)
    ensures forall held, bare :: Idle(b, held, bare) <= Idle(c, held, bare)
  {
    forall m | m in a ensures |c[m]| <= |a[m]| && c[m] == a[m][|a[m]| - |c[m]|..] {
      assert c[m] == b[m][|b[m]| - |c[m]|..];
    }
  }

  lemma LedFurther<T>(a: map<T, seq<T>>, b: map<T, seq<T>>, c: map<T, seq<T>>, route: seq<(T, nat)>, from: T, to: T)
    requires Shrunk(a, b) && Shrunk(b, c) && LedTo(b, c, route, from, to)
    ensures LedTo(a, c, route, from, to)
    decreases |route|
  {
    ShrunkTwice(a, b, c);
    if route != [] {
      LedFurther(a, b, c, route[1..], TokenIn(b, route[0]), to);
    }
  }

  function OneLess<T>(held: map<T, nat>, m: T): map<T, nat>
    requires m in held && held[m] > 0
  {
    held[m := held[m] - 1]
  }

  function Popped<T>(tokens: map<T, seq<T>>, m: T): map<T, seq<T>>
    requires m in tokens && tokens[m] != []
  {
    tokens[m := tokens[m][1..]]
  }

  /** The slot of the oldest token of `m`. */
  function Oldest<T>(tokens: map<T, seq<T>>, m: T): (T, nat)
    requires m in tokens && tokens[m] != []
  {
    (m, |tokens[m]| - 1)
  }

  lemma PopShrinks<T>(tokens: map<T, seq<T>>, m: T)
    requires TokensKnown(tokens) && m in tokens && tokens[m] != []
    ensures var p := Popped(tokens, m); tokens[m][0] in tokens && Shrunk(tokens, p) && TokensKnown(p)
    ensures Oldest(tokens, m) in Slots(tokens) && TokenIn(tokens, Oldest(tokens, m)) == tokens[m][0]
    ensures Slots(Popped(tokens, m)) == Slots(tokens) - {Oldest(tokens, m)}
  {
    PopSlots(tokens, m);
  }

  lemma PopSlots<T>(tokens: map<T, seq<T>>, m: T)
    requires m in tokens && tokens[m] != []
    ensures Oldest(tokens, m) in Slots(tokens)
    ensures Slots(Popped(tokens, m)) == Slots(tokens) - {Oldest(tokens, m)}
  {
    forall slot ensures slot in Slots(Popped(tokens, m)) <==> slot in Slots(tokens) && slot != Oldest(tokens, m) {
      assert slot in Slots(tokens) <==> slot.0 in tokens && slot.1 < |tokens[slot.0]|;
    }
  }

  lemma ShrunkOn<T>(start: map<T, seq<T>>, before: map<T, seq<T>>, popped: map<T, seq<T>>, now: map<T, seq<T>>, m: T)
    requires Shrunk(start, before) && TokensKnown(before) && m in before && before[m] != []
    requires popped == Popped(before, m) && Shrunk(popped, now)
    ensures Shrunk(before, now) && Shrunk(start, now) && TokensKnown(now) && Slots(now) < Slots(before)
  {
    hide Shrunk, TokensKnown, Idle;
    PopShrinks(before, m);
    ShrunkTwice(before, popped, now);
    ShrunkTwice(start, before, now);
    assert Oldest(before, m) !in Slots(now);
  }

  /**
   What a `get_event` of `from` does to the latches: it takes their oldest tokens, those in `route` led to
   `to`, and the others lead nowhere.
   */
  ghost predicate Fetches<T>(was: map<T, seq<T>>, now: map<T, seq<T>>, held: map<T, nat>, bare: set<T>,
      route: seq<(T, nat)>, from: T, to: T)
  {
    Shrunk(was, now) && DroppedFrom(was, now, Idle(now, held, bare), route) && LedTo(was, now, route, from, to)
  }

  /** One turn of the loop: the oldest token of `m` is lost, and then those that end up at `to`. */
  lemma TurnOn<T>(start: map<T, seq<T>>, before: map<T, seq<T>>, popped: map<T, seq<T>>, now: map<T, seq<T>>,
      m: T, held: map<T, nat>, bare: set<T>, route: seq<(T, nat)>, to: T)
    requires Fetches(start, before, held, bare, [], m, m)
    requires TokensKnown(before) && m in before && before[m] != [] && popped == Popped(before, m)
    requires Fetches(popped, now, held, bare, route, before[m][0], to)
    ensures Fetches(start, now, held, bare, [Oldest(before, m)] + route, m, to)
    ensures route == [] && before[m][0] in Idle(now, held, bare) ==> Fetches(start, now, held, bare, [], m, m)
    ensures TokensKnown(now) && Slots(now) < Slots(before)
  {
    hide Shrunk, TokensKnown, Idle, Slots, TokenIn, DroppedFrom;
    ShrunkOn(start, before, popped, now, m);
    DroppedOn(start, before, popped, now, m, held, bare, route);
    PopShrinks(before, m);
    ShrunkTwice(before, popped, now);
    ShrunkTwice(start, before, popped);
    LedFurther(start, popped, now, route, before[m][0], to);
    assert TokenIn(start, Oldest(before, m)) == before[m][0];
    assert ([Oldest(before, m)] + route)[1..] == route;
  }

  lemma DroppedOn<T>(start: map<T, seq<T>>, before: map<T, seq<T>>, popped: map<T, seq<T>>, now: map<T, seq<T>>,
      m: T, held: map<T, nat>, bare: set<T>, route: seq<(T, nat)>)
    requires Shrunk(start, before) && TokensKnown(before) && m in before && before[m] != []
    requires popped == Popped(before, m) && Shrunk(popped, now)
    requires DroppedFrom(start, before, Idle(before, held, bare), [])
    requires DroppedFrom(popped, now, Idle(now, held, bare), route)
    ensures var oldest := Oldest(before, m); var idle := Idle(now, held, bare);
            && DroppedFrom(start, now, idle, [oldest] + route)
            && (route == [] && before[m][0] in idle ==> DroppedFrom(start, now, idle, []))
  {
    hide Shrunk, TokensKnown, Idle, Slots, TokenIn;
    PopShrinks(before, m);
    ShrunkTwice(before, popped, now);
    ShrunkTwice(start, before, now);
    var oldest, idle := Oldest(before, m), Idle(now, held, bare);
    forall slot | slot in Slots(start) && slot !in Slots(now) && slot !in route && slot != oldest
      ensures TokenIn(start, slot) in idle
    {
      assert slot !in Slots(before) || slot in Slots(popped);
    }
    assert TokenIn(start, oldest) == before[m][0];
  }

  lemma NothingYet<T>(tokens: map<T, seq<T>>, held: map<T, nat>, bare: set<T>, m: T)
    ensures Fetches(tokens, tokens, held, bare, [], m, m)
  {
  }

  // ---------------------------------------------------------------- the objects

  /** A select, or a receiver or latch with `items` waiting in it. `latch` is the select's own latch. */
  class Member {
    const isSelect: bool
    var receivers: seq<Member>
    var notify: Member?
    var latch: seq<Member>
    var items: nat

    constructor (isSelect: bool)
      ensures this.isSelect == isSelect && receivers == [] && notify == null && latch == [] && items == 0
    {
      this.isSelect := isSelect;
      receivers, notify, latch, items := [], null, [], 0;
    }

    /** `_check_no_loop`: may `recv` be added without `this`, or anything under it, being `recv`? */
    method CheckNoLoop(recv: Member, ghost world: set<Member>, ghost rank: map<Member, nat>) returns (ok: bool)
      requires Valid(world, rank) && this in world && isSelect
      ensures ok <==> !Reaches<Member>(Lists(world), rank, this, recv)
      decreases rank[this]
    {
      ghost var g := Lists(world);
      if recv == this {
        return false;
      }
      for i := 0 to |receivers|
        invariant Lists(world) == g
        invariant forall k :: 0 <= k < i ==> !Reaches<Member>(g, rank, g[this][k], recv)
      {
        assert g[this][i] == receivers[i];
        if receivers[i] == recv {
          return false;
        }
        if receivers[i].isSelect {
          var free := receivers[i].CheckNoLoop(recv, world, rank);
          assert Lists(world) == g;
          if !free {
            return false;
          }
        }
      }
      return true;
    }

    method Size(ghost world: set<Member>, ghost rank: map<Member, nat>) returns (n: nat)
      requires Valid(world, rank) && this in world
      ensures n == SizeOf<Member>(Lists(world), rank, Held(world), this)
      decreases rank[this]
    {
      ghost var g, held := Lists(world), Held(world);
      if !isSelect {
        return items;
      }
      n := 0;
      for i := 0 to |receivers|
        invariant Lists(world) == g && Held(world) == held
        invariant n == SumOf<Member>(g, rank, held, this, i)
      {
        assert g[this][i] == receivers[i];
        var part := receivers[i].Size(world, rank);
        assert Lists(world) == g && Held(world) == held;
        n := n + part;
      }
    }

    /** `_put`: queue a token here, and notify the select this one belongs to. */
    method Put(value: Member, ghost world: set<Member>, ghost rank: map<Member, nat>)
      requires Valid(world, rank) && this in world && isSelect
      modifies world`latch
      ensures forall x :: x in world ==>
        x.latch == old(x.latch) + Climb<Member>(Owners(world), rank, this, value, x)
      decreases NotBelow<Member>(rank, this)
    {
      hide Climb, NotBelow, Layered;
      ghost var owner := Owners(world);
      latch := latch + [value];
      assert Valid(world, rank) && Owners(world) == owner;
      if notify != null {
        hide Valid;
        OwnerIsHigher<Member>(owner, rank, this);
        notify.Put(this, world, rank);
      }
      forall x | x in world ensures x.latch == old(x.latch) + Climb<Member>(owner, rank, this, value, x) {
        ClimbStep<Member>(owner, rank, this, value, x, old(x.latch));
      }
    }

    /**
     The receiver is listed before its owner is looked at: a refused receiver stays listed, and from then on
     `size` counts what it holds although this select is never notified of it.
     */
    method Add(recv: Member, ghost world: set<Member>, ghost rank: map<Member, nat>)
      returns (outcome: AddOutcome, ghost rank': map<Member, nat>)
      requires Valid(world, rank) && this in world && recv in world && isSelect
      modifies this`receivers, recv`notify, world`latch
      ensures outcome.Cycle? <==> old(Reaches<Member>(Lists(world), rank, recv, this))
      ensures outcome.AlreadyOwned? <==> !outcome.Cycle? && old(recv.notify) != null
      ensures Lists(world) == if outcome.Cycle? then old(Lists(world)) else old(Extended(Lists(world), this, recv))
      ensures recv.notify == if outcome.Added? then this else old(recv.notify)
      ensures Valid(world, rank')
      ensures !outcome.Added? ==> forall x :: x in world ==> x.latch == old(x.latch)
      ensures outcome.Added? ==> forall x :: x in world ==>
        x.latch == old(x.latch) + Times(Climb<Member>(Owners(world), rank', this, recv, x),
                                        SizeOf<Member>(Lists(world), rank', Held(world), recv))
      ensures OwnsAll() <==> old(OwnsAll()) && !outcome.AlreadyOwned?
    {
      hide Climb, SizeOf, Times, Held, Extended, Layered, OwnsEach, Distinct, Rising;
      if recv.isSelect {
        var free := recv.CheckNoLoop(this, world, rank);
        if !free {
          return Cycle, rank;
        }
      }
      ghost var owns := OwnsAll();
      assert owns == old(OwnsAll());
      rank' := List(recv, world, rank);
      assert OwnsEach(receivers[..|receivers| - 1]) == owns;
      if recv.notify != null {
        return AlreadyOwned, rank';
      }
      Adopt(recv, world, rank');
      PutHeld(recv, world, rank');
      return Added, rank';
    }

    method Adopt(recv: Member, ghost world: set<Member>, ghost rank: map<Member, nat>)
      requires Valid(world, rank) && this in world && recv in world && isSelect
      requires recv.notify == null && receivers != [] && receivers[|receivers| - 1] == recv
      modifies recv`notify
      ensures Valid(world, rank) && recv.notify == this
      ensures OwnsAll() <==> old(OwnsEach(receivers[..|receivers| - 1]))
    {
      hide Layered, Rising;
      ghost var before := receivers[..|receivers| - 1];
      ghost var owned := OwnsEach(before);
      assert receivers == before + [recv];
      recv.notify := this;
      if recv in before {
        ghost var k :| 0 <= k < |before| && before[k] == recv;
        assert receivers[k] == recv && receivers[|before|] == recv;
      } else if OwnsAll() {
        assert forall k :: 0 <= k < |before| ==> before[k] == receivers[k];
      } else if owned {
        DistinctConcat<Member>(before, [recv]);
      }
    }

    method List(recv: Member, ghost world: set<Member>, ghost rank: map<Member, nat>)
      returns (ghost rank': map<Member, nat>)
      requires Valid(world, rank) && this in world && recv in world && isSelect
      requires !Reaches<Member>(Lists(world), rank, recv, this)
      modifies this`receivers
      ensures Lists(world) == old(Extended(Lists(world), this, recv)) && Valid(world, rank')
      ensures receivers == old(receivers) + [recv]
      ensures recv.notify != null ==> !OwnsAll()
      ensures OwnsEach(receivers[..|receivers| - 1]) <==> old(OwnsAll())
    {
      ghost var g, before := Lists(world), receivers;
      AddKeepsLayered<Member>(g, rank, this, recv);
      rank' := Lifted<Member>(g, rank, this, recv);
      receivers := receivers + [recv];
      assert Lists(world) == Extended(g, this, recv);
      assert receivers[..|receivers| - 1] == before && receivers[|receivers| - 1] == recv;
      if recv.notify == this {
        ghost var k :| 0 <= k < |before| && before[k] == recv;
        assert receivers[k] == recv && receivers[|before|] == recv;
      }
    }

    /** One token for each item `recv` already holds. */
    method PutHeld(recv: Member, ghost world: set<Member>, ghost rank: map<Member, nat>)
      requires Valid(world, rank) && this in world && recv in world && isSelect
      modifies world`latch
      ensures forall x :: x in world ==>
        x.latch == old(x.latch) + Times(Climb<Member>(Owners(world), rank, this, recv, x),
                                        SizeOf<Member>(Lists(world), rank, Held(world), recv))
    {
      hide Climb, SizeOf, Layered;
      ghost var owner := Owners(world);
      var n := recv.Size(world, rank);
      for i := 0 to n
        invariant Owners(world) == owner
        invariant forall x :: x in world ==>
          x.latch == old(x.latch) + Times(Climb<Member>(owner, rank, this, recv, x), i)
      {
        Put(recv, world, rank);
      }
    }

    method Remove(recv: Member, ghost world: set<Member>, ghost rank: map<Member, nat>) returns (ok: bool)
      requires Valid(world, rank) && this in world && recv in world && isSelect
      modifies this`receivers, recv`notify
      ensures ok <==> old(recv.notify) == this
      ensures ok ==>
        recv in old(receivers) && receivers == RemoveAt(old(receivers), IndexOf<Member>(old(receivers), recv))
      ensures !ok ==> receivers == old(receivers)
      ensures recv.notify == if ok then null else old(recv.notify)
      ensures Valid(world, rank)
      ensures old(OwnsAll()) ==> OwnsAll()
    {
      if recv.notify != this {
        return false;
      }
      ghost var before := receivers;
      var i := IndexOf<Member>(receivers, recv);
      RemoveOne<Member>(receivers, i);
      receivers := RemoveAt<Member>(receivers, i);
      recv.notify := null;
      return true;
    }

    method TakeToken(ghost world: set<Member>) returns (recv: Member)
      requires this in world && latch != [] && TokensKnown<Member>(Tokens(world))
      modifies this`latch
      ensures var was := old(Tokens(world));
              && this in was && was[this] != [] && recv == was[this][0] && recv in world
              && Tokens(world) == Popped<Member>(was, this) && TokensKnown<Member>(Tokens(world))
              && Slots<Member>(Tokens(world)) < Slots<Member>(was)
    {
      PopShrinks<Member>(Tokens(world), this);
      recv := latch[0];
      latch := latch[1..];
    }

    method TakeItem(recv: Member, ghost world: set<Member>)
      requires recv in world && !recv.isSelect && recv.items > 0
      modifies recv`items
      ensures recv in old(Held(world)) && old(Held(world))[recv] > 0
      ensures Held(world) == OneLess<Member>(old(Held(world)), recv)
    {
      recv.items := recv.items - 1;
    }

    /**
     `get_event` with `oneshot` off, once it has stopped sleeping: tokens are taken, oldest first, until one
     leads to an item, or to a select without receivers, which is an error. `route` are the tokens that led
     there, `end` is where they led. All other tokens taken lead nowhere; when none is left it times out.
     */
    method GetEvent(ghost world: set<Member>)
      returns (e: Fetched, ghost route: seq<(Member, nat)>, ghost end: Member)
      requires this in world && isSelect && TokensKnown<Member>(Tokens(world))
      modifies world`latch, world`items
      ensures receivers == [] ==> e.NoReceivers?
      ensures Fetches<Member>(old(Tokens(world)), Tokens(world), old(Held(world)), Bare(world), route, this, end)
      ensures e.NoReceivers? ==> end in Bare(world)
      ensures e.Got? ==> e.source == end && end in old(Held(world)) && old(Held(world))[end] > 0
      ensures Held(world) == if e.Got? then OneLess<Member>(old(Held(world)), end) else old(Held(world))
      ensures e.TimedOut? ==> latch == [] && route == []
      decreases Slots<Member>(Tokens(world))
    {
      hide Fetches, Slots, TokensKnown, Idle, Oldest, Popped, Bare, Held, OneLess, Tokens;
      ghost var start, held, bare := Tokens(world), Held(world), Bare(world);
      NothingYet<Member>(start, held, bare, this);
      BareIffUnlisted(world, this);
      if receivers == [] {
        return NoReceivers, [], this;
      }
      while latch != []
        invariant Fetches<Member>(start, Tokens(world), held, bare, [], this, this)
        invariant TokensKnown<Member>(Tokens(world)) && Held(world) == held && Bare(world) == bare
        invariant Slots<Member>(Tokens(world)) <= Slots<Member>(start)
        decreases Slots<Member>(Tokens(world))
      {
        ghost var before := Tokens(world);
        var recv := TakeToken(world);
        ghost var popped := Tokens(world);
        if recv.isSelect {
          var inner, led, last := recv.GetEvent(world);
          assert Bare(world) == bare;
          TurnOn<Member>(start, before, popped, Tokens(world), this, held, bare, led, last);
          if !inner.TimedOut? {
            return inner, [Oldest<Member>(before, this)] + led, last;
          }
          IdleSelect(world, recv, held);
        } else {
          NothingYet<Member>(popped, held, bare, recv);
          TurnOn<Member>(start, before, popped, popped, this, held, bare, [], recv);
          if recv.items > 0 {
            TakeItem(recv, world);
            return Got(recv), [Oldest<Member>(before, this)] + [], recv;
          }
          IdleReceiver(world, recv);
        }
      }
      return TimedOut, [], this;
    }

    /** Everything listed is listed once, and notifies this select. */
    ghost predicate OwnsAll()
      reads this`receivers, receivers`notify
    {
      OwnsEach(receivers)
    }

    ghost predicate OwnsEach(ms: seq<Member>)
      reads ms`notify
    {
      Distinct<Member>(ms) && forall k :: 0 <= k < |ms| ==> ms[k].notify == this
    }
  }

  datatype AddOutcome = Added | Cycle | AlreadyOwned

  datatype Fetched = Got(source: Member) | TimedOut | NoReceivers

  ghost function Tokens(world: set<Member>): map<Member, seq<Member>>
    reads world`latch
  {
    map m | m in world :: m.latch
  }

  /** The selects that list nothing. */
  ghost function Bare(world: set<Member>): set<Member>
    reads world`receivers
  {
    set m | m in world && m.isSelect && m.receivers == []
  }

  lemma BareIffUnlisted(world: set<Member>, m: Member)
    requires m in world && m.isSelect
    ensures m in Bare(world) <==> m.receivers == []
  {
  }

  lemma IdleSelect(world: set<Member>, m: Member, held: map<Member, nat>)
    requires m in world && m.isSelect && m.latch == [] && m.receivers != [] && held.Keys == Held(world).Keys
    ensures m in Idle<Member>(Tokens(world), held, Bare(world))
  {
  }

  lemma IdleReceiver(world: set<Member>, m: Member)
    requires m in world && !m.isSelect && m.items == 0
    ensures m in Idle<Member>(Tokens(world), Held(world), Bare(world))
  {
  }

  ghost function Owners(world: set<Member>): map<Member, Member>
    reads world`notify
  {
    map m | m in world && m.notify != null :: m.notify
  }

  ghost function Lists(world: set<Member>): Graph<Member>
    reads world`receivers
  {
    map m | m in world :: m.receivers
  }

  ghost function Held(world: set<Member>): map<Member, nat>
    reads world`items
  {
    map m | m in world && !m.isSelect :: m.items
  }

  /** Only selects have members, and whatever is notified lists the notifier. */
  ghost predicate Valid(world: set<Member>, rank: map<Member, nat>): (valid: bool)
    reads world`receivers, world`notify
    ensures valid ==> rank.Keys == world && Rising<Member>(Owners(world), rank)
  {
    && Layered<Member>(Lists(world), rank)
    && (forall m :: m in world && !m.isSelect ==> m.receivers == [])
    && (forall m :: m in world && m.notify != null ==>
          m.notify in world && m.notify.isSelect && m in m.notify.receivers)
  }
}
