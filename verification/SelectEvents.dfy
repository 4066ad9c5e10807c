/**
 `Select` under concurrency, with selects nested in selects and `oneshot` off. A select's latch holds
 tokens naming the member to look at; `get_event` takes a token, then looks into that member without
 blocking, and drops the token if there is nothing to be had.
 */
module SelectEvents {
  import opened Seqs

  /** A latch, receiver or select. */
  type Node = nat

  /** An element of the latch of select `at`. */
  datatype Token = Token(at: Node, member: Node)

  /**
   `notify[m]` is the select whose `_put` was installed on `m`, which lists it; `par` holds the memberships
   whose `add` has also counted what `m` already held. `items` has one entry, naming its latch or receiver, for
   each item held and not yet assigned to a sleeper there. `carriers` are the notifications on their
   way: what `m` received has been queued, and calling its `notify` is next. A consumer is a thread in
   `get_event`: the select it was called on, then the members whose tokens it has taken, innermost last.
   */
  datatype Sys = Sys(
    selects: set<Node>,
    notify: map<Node, Node>,
    par: map<Node, Node>,
    tokens: seq<Token>,
    items: seq<Node>,
    carriers: seq<Node>,
    consumers: seq<seq<Node>>)

  datatype Event =
    | Install(p: Node, m: Node)    // `p.add(m)` sets `m.notify`
    | Announce(m: Node, n: nat)    // ... and then puts a token for each of `n` items
    | Deliver(x: Node)             // an item is queued in a latch or receiver
    | Notify(i: nat)               // a notification reaches the select above
    | Enter(p: Node)               // a thread calls `p.get_event()`
    | Pop(i: nat)                  // a consumer takes the oldest token of the select it is at
    | Fail(i: nat)                 // it finds nothing there, and goes back to the select above
    | Take(i: nat, j: nat)         // it takes an item and returns
    | Drain(j: nat)                // somebody takes an item directly

  /** Members lie deeper than the selects they belong to: `add` refuses cycles. */
  type Depth = Node -> nat

  /** Memberships: each member with the select it belongs to. */
  type Links = map<Node, Node>

  function Last(path: seq<Node>): Node
    requires path != []
  {
    path[|path| - 1]
  }

  predicate HasToken(tokens: seq<Token>, q: Node)
  {
    exists k :: 0 <= k < |tokens| && tokens[k].at == q
  }

  /** The oldest token in the latch of `q`. */
  function FirstToken(tokens: seq<Token>, q: Node): (k: nat)
    requires HasToken(tokens, q)
    ensures k < |tokens| && tokens[k].at == q && forall j :: 0 <= j < k ==> tokens[j].at != q
  {
    if tokens[0].at == q then 0
    else
      assert HasToken(tokens[1..], q) by {
        var k :| 0 <= k < |tokens| && tokens[k].at == q;
        assert tokens[1..][k - 1].at == q;
      }
      1 + FirstToken(tokens[1..], q)
  }

  ghost predicate Structure(depth: Depth, s: Sys)
  {
    && (forall m :: m in s.notify ==> s.notify[m] in s.selects && depth(s.notify[m]) < depth(m))
    && (forall m :: m in s.par ==> m in s.notify && s.notify[m] == s.par[m])
    && (forall k :: 0 <= k < |s.tokens| ==>
          s.tokens[k].member in s.notify && s.notify[s.tokens[k].member] == s.tokens[k].at)
    && (forall k :: 0 <= k < |s.items| ==> s.items[k] !in s.selects)
    && (forall i :: 0 <= i < |s.consumers| ==> PathOk(s, s.consumers[i]))
  }

  predicate PathOk(s: Sys, path: seq<Node>)
  {
    && path != [] && path[0] in s.selects
    && (forall k :: 1 <= k < |path| ==> path[k] in s.notify && s.notify[path[k]] == path[k - 1])
  }

  ghost predicate Forest(depth: Depth, links: Links)
  {
    forall m :: m in links ==> depth(links[m]) < depth(m)
  }

  /** `x` is `p` or belongs to it through memberships in `links`. */
  ghost predicate Under(depth: Depth, links: Links, x: Node, p: Node)
    requires Forest(depth, links)
    decreases depth(x)
  {
    x == p || (x in links && Under(depth, links, links[x], p))
  }

  ghost function UnderF(depth: Depth, links: Links, p: Node): Node -> bool
    requires Forest(depth, links)
  {
    (x: Node) => Under(depth, links, x, p)
  }

  /** `size()`: the number of items held under a node, through every select that lists it. */
  ghost function Size(depth: Depth, s: Sys, p: Node): nat
    requires Forest(depth, s.notify)
  {
    Count(s.items, UnderF(depth, s.notify, p))
  }

  ghost predicate Enabled(depth: Depth, s: Sys, e: Event)
    requires Structure(depth, s)
  {
    match e
    case Install(p, m) => p in s.selects && m !in s.notify && depth(p) < depth(m)
    // `size()` may also count a receiver that is listed already and has no `notify` yet.
    case Announce(m, n) => m in s.notify && m !in s.par && n >= Size(depth, s, m)
    case Deliver(x) => x !in s.selects
    case Notify(i) => i < |s.carriers|
    case Enter(p) => p in s.selects
    case Pop(i) =>
      i < |s.consumers| && Last(s.consumers[i]) in s.selects && HasToken(s.tokens, Last(s.consumers[i]))
    case Fail(i) =>
      && i < |s.consumers| && |s.consumers[i]| > 1
      && (var q := Last(s.consumers[i]); if q in s.selects then !HasToken(s.tokens, q) else q !in s.items)
    case Take(i, j) =>
      && i < |s.consumers| && Last(s.consumers[i]) !in s.selects
      && j < |s.items| && s.items[j] == Last(s.consumers[i])
    case Drain(j) => j < |s.items|
  }

  function Copies(m: Node, n: nat): (r: seq<Node>)
    ensures |r| == n && forall x :: x in r ==> x == m
  {
    seq(n, _ => m)
  }

  ghost function Apply(depth: Depth, s: Sys, e: Event): Sys
    requires Structure(depth, s) && Enabled(depth, s, e)
  {
    match e
    case Install(p, m) => s.(notify := s.notify[m := p])
    case Announce(m, n) => s.(par := s.par[m := s.notify[m]], carriers := s.carriers + Copies(m, n))
    case Deliver(x) => s.(items := s.items + [x], carriers := s.carriers + [x])
    case Notify(i) =>
      var m := s.carriers[i];
      var rest := RemoveAt(s.carriers, i);
      if m !in s.notify then s.(carriers := rest)
      else s.(carriers := rest + [s.notify[m]], tokens := s.tokens + [Token(s.notify[m], m)])
    case Enter(p) => s.(consumers := s.consumers + [[p]])
    case Pop(i) =>
      var path := s.consumers[i];
      var k := FirstToken(s.tokens, Last(path));
      s.(tokens := RemoveAt(s.tokens, k), consumers := s.consumers[i := path + [s.tokens[k].member]])
    case Fail(i) =>
      var path := s.consumers[i];
      s.(consumers := s.consumers[i := path[..|path| - 1]])
    case Take(i, j) => s.(items := RemoveAt(s.items, j), consumers := RemoveAt(s.consumers, i))
    case Drain(j) => s.(items := RemoveAt(s.items, j))
  }

  // ---------------------------------------------------------------- what is counted

  function IsF(m: Node): Node -> bool { (x: Node) => x == m }

  /** Tokens for member `m`. */
  function ForF(m: Node): Token -> bool { (t: Token) => t.member == m }

  /** Tokens in the latch of `q`. */
  function InF(q: Node): Token -> bool { (t: Token) => t.at == q }

  /** Tokens under `p` for a member that `links` does not count. */
  ghost function StrayF(depth: Depth, links: Links, p: Node): Token -> bool
    requires Forest(depth, links)
  {
    (t: Token) => Under(depth, links, t.at, p) && !Under(depth, links, t.member, p)
  }

  predicate Holds(path: seq<Node>, m: Node)
  {
    |path| > 1 && m in path[1..]
  }

  /** Consumers that hold a token for `m`. */
  function HoldsF(m: Node): seq<Node> -> bool { path => Holds(path, m) }

  /** ... and have gone on from it. */
  function BeyondF(m: Node): seq<Node> -> bool { path => Holds(path, m) && Last(path) != m }

  /** ... and are at a node under `m`. */
  ghost function InsideF(depth: Depth, links: Links, m: Node): seq<Node> -> bool
    requires Forest(depth, links)
  {
    path => Holds(path, m) && Under(depth, links, Last(path), m)
  }

  /**
   `links` counts for `m`: it is a part of the memberships that has all those under `m` whose `add` is
   complete, and possibly some whose `add` was under way when `m` was added itself.
   */
  ghost predicate CountsFor(depth: Depth, s: Sys, links: Links, m: Node)
  {
    && Forest(depth, links)
    && (forall x :: x in links ==> x in s.notify && s.notify[x] == links[x])
    && (forall x :: x in s.par && Under(depth, links, s.par[x], m) ==> x in links)
  }

  /**
   Tokens for `m` above it, consumers inside it on behalf of one, and notifications on their way under
   it cover the items under it, over and above what stray tokens under it will use up.
   */
  ghost predicate CoversSize(depth: Depth, s: Sys, links: Links, m: Node)
    requires Forest(depth, links)
  {
    Count(s.tokens, ForF(m)) + Count(s.consumers, InsideF(depth, links, m)) + Count(s.carriers, UnderF(depth, links, m))
      >= Count(s.items, UnderF(depth, links, m)) + Count(s.tokens, StrayF(depth, links, m))
  }

  ghost predicate Sized(depth: Depth, s: Sys, m: Node)
  {
    exists links :: CountsFor(depth, s, links, m) && CoversSize(depth, s, links, m)
  }

  /** The same, with the tokens in the latch of the select `m` in the place of its size. */
  ghost predicate CoversTokens(s: Sys, m: Node)
  {
    Count(s.tokens, ForF(m)) + Count(s.consumers, HoldsF(m)) + Count(s.carriers, IsF(m))
      >= Count(s.tokens, InF(m)) + Count(s.consumers, BeyondF(m))
  }

  ghost predicate Covered(depth: Depth, s: Sys, m: Node)
  {
    Sized(depth, s, m) || (m in s.selects && CoversTokens(s, m))
  }

  ghost predicate Inv(depth: Depth, s: Sys)
  {
    Structure(depth, s) && forall m :: m in s.par ==> Covered(depth, s, m)
  }

  // ---------------------------------------------------------------- paths

  /** The nodes of a path lie ever deeper, so none occurs twice. */
  lemma {:induction false} PathDeepens(depth: Depth, s: Sys, path: seq<Node>, j: nat, k: nat)
    requires Structure(depth, s) && PathOk(s, path) && j < k < |path|
    ensures depth(path[j]) < depth(path[k])
    decreases k
  {
    assert path[k] in s.notify && s.notify[path[k]] == path[k - 1];
    if j < k - 1 {
      PathDeepens(depth, s, path, j, k - 1);
    }
  }

  lemma NotHeldTwice(depth: Depth, s: Sys, path: seq<Node>, m: Node)
    requires Structure(depth, s) && PathOk(s, path) && m in s.notify && s.notify[m] == Last(path)
    ensures !Holds(path, m) && m != Last(path) && PathOk(s, path + [m])
    ensures forall p :: Holds(path + [m], p) <==> Holds(path, p) || p == m
  {
    forall k | 0 <= k < |path| ensures path[k] != m {
      if k < |path| - 1 {
        PathDeepens(depth, s, path, k, |path| - 1);
      }
    }
    assert (path + [m])[1..] == path[1..] + [m];
  }

  lemma DroppedOne(depth: Depth, s: Sys, path: seq<Node>)
    requires Structure(depth, s) && PathOk(s, path) && |path| > 1
    ensures var path' := path[..|path| - 1];
            && PathOk(s, path') && Last(path) in s.notify && s.notify[Last(path)] == Last(path')
            && (forall p :: Holds(path', p) <==> Holds(path, p) && p != Last(path))
  {
    var path' := path[..|path| - 1];
    var q := Last(path);
    assert path[1..] == path'[1..] + [q];
    assert path[|path| - 1] == q && path[|path| - 2] == Last(path');
    forall k | 0 <= k < |path'| ensures path'[k] != q {
      PathDeepens(depth, s, path, k, |path| - 1);
    }
  }

  lemma {:induction false} UnderIsDeeper(depth: Depth, links: Links, x: Node, p: Node)
    requires Forest(depth, links) && Under(depth, links, x, p)
    ensures x == p || depth(p) < depth(x)
    decreases depth(x)
  {
    if x != p {
      UnderIsDeeper(depth, links, links[x], p);
    }
  }

  // ---------------------------------------------------------------- steps: the size

  lemma DeliverSized(depth: Depth, s: Sys, x: Node, links: Links, p: Node)
    requires Structure(depth, s) && Enabled(depth, s, Deliver(x))
    requires Forest(depth, links) && CoversSize(depth, s, links, p)
    ensures CoversSize(depth, Apply(depth, s, Deliver(x)), links, p)
  {
    hide Count, Under;
    CountSnoc(s.items, x, UnderF(depth, links, p));
    CountSnoc(s.carriers, x, UnderF(depth, links, p));
  }

  lemma NotifySized(depth: Depth, s: Sys, i: nat, links: Links, p: Node)
    requires Structure(depth, s) && Enabled(depth, s, Notify(i)) && p in s.par
    requires CountsFor(depth, s, links, p) && CoversSize(depth, s, links, p)
    ensures CoversSize(depth, Apply(depth, s, Notify(i)), links, p)
  {
    hide Count;
    var m := s.carriers[i];
    var rest := RemoveAt(s.carriers, i);
    CountRemove(s.carriers, i, UnderF(depth, links, p));
    if m in s.notify {
      var q := s.notify[m];
      CountSnoc(rest, q, UnderF(depth, links, p));
      CountSnoc(s.tokens, Token(q, m), ForF(p));
      CountSnoc(s.tokens, Token(q, m), StrayF(depth, links, p));
      if m == p && Under(depth, links, q, p) {
        UnderIsDeeper(depth, links, q, p);
      }
    }
  }

  lemma PopSized(depth: Depth, s: Sys, i: nat, links: Links, p: Node)
    requires Structure(depth, s) && Enabled(depth, s, Pop(i)) && p in s.par
    requires CountsFor(depth, s, links, p) && CoversSize(depth, s, links, p)
    ensures CoversSize(depth, Apply(depth, s, Pop(i)), links, p)
  {
    hide Count, Holds;
    var path := s.consumers[i];
    var q := Last(path);
    var k := FirstToken(s.tokens, q);
    var m := s.tokens[k].member;
    NotHeldTwice(depth, s, path, m);
    CountRemove(s.tokens, k, ForF(p));
    CountRemove(s.tokens, k, StrayF(depth, links, p));
    CountUpdate(s.consumers, i, path + [m], InsideF(depth, links, p));
    if p == m && Under(depth, links, q, p) {
      UnderIsDeeper(depth, links, q, p);
    }
  }

  lemma FailSized(depth: Depth, s: Sys, i: nat, links: Links, p: Node)
    requires Structure(depth, s) && Enabled(depth, s, Fail(i)) && p != Last(s.consumers[i])
    requires CountsFor(depth, s, links, p) && CoversSize(depth, s, links, p)
    ensures CoversSize(depth, Apply(depth, s, Fail(i)), links, p)
  {
    hide Count, Holds;
    var path := s.consumers[i];
    DroppedOne(depth, s, path);
    CountUpdate(s.consumers, i, path[..|path| - 1], InsideF(depth, links, p));
  }

  lemma TakeSized(depth: Depth, s: Sys, i: nat, j: nat, links: Links, p: Node)
    requires Structure(depth, s) && Enabled(depth, s, Take(i, j))
    requires Forest(depth, links) && CoversSize(depth, s, links, p)
    ensures CoversSize(depth, Apply(depth, s, Take(i, j)), links, p)
  {
    hide Count, Under;
    CountRemove(s.items, j, UnderF(depth, links, p));
    CountRemove(s.consumers, i, InsideF(depth, links, p));
  }

  lemma DrainSized(depth: Depth, s: Sys, j: nat, links: Links, p: Node)
    requires Structure(depth, s) && Enabled(depth, s, Drain(j))
    requires Forest(depth, links) && CoversSize(depth, s, links, p)
    ensures CoversSize(depth, Apply(depth, s, Drain(j)), links, p)
  {
    hide Count, Under;
    CountRemove(s.items, j, UnderF(depth, links, p));
  }

  lemma EnterSized(depth: Depth, s: Sys, q: Node, links: Links, p: Node)
    requires Structure(depth, s) && Enabled(depth, s, Enter(q))
    requires Forest(depth, links) && CoversSize(depth, s, links, p)
    ensures CoversSize(depth, Apply(depth, s, Enter(q)), links, p)
  {
    hide Count, Under;
    CountSnoc(s.consumers, [q], InsideF(depth, links, p));
  }

  // ---------------------------------------------------------------- steps: adding a member

  /** All memberships under `m`, along with those in `links`. */
  ghost function Wider(depth: Depth, s: Sys, links: Links, m: Node): Links
    requires Structure(depth, s)
  {
    map x | x in s.notify && (x in links || Under(depth, s.notify, x, m)) :: s.notify[x]
  }

  lemma {:induction false} WiderUnder(depth: Depth, s: Sys, links: Links, m: Node, x: Node, p: Node)
    requires Structure(depth, s) && CountsFor(depth, s, links, p)
    requires m in s.notify && Under(depth, links, s.notify[m], p)
    ensures Under(depth, Wider(depth, s, links, m), x, p) <==>
      Under(depth, links, x, p) || Under(depth, s.notify, x, m)
    decreases depth(x)
  {
    if x == m {
      WiderUnder(depth, s, links, m, s.notify[m], p);
    } else if x in s.notify {
      WiderUnder(depth, s, links, m, s.notify[x], p);
    }
  }

  /** Nothing is both under a member that does not count yet and counted already under something above it. */
  lemma {:induction false} WiderApart(depth: Depth, s: Sys, links: Links, m: Node, x: Node, p: Node)
    requires Structure(depth, s) && CountsFor(depth, s, links, p)
    requires m in s.notify && m !in links && Under(depth, links, s.notify[m], p)
    ensures !(Under(depth, links, x, p) && Under(depth, s.notify, x, m))
    decreases depth(x)
  {
    if Under(depth, links, x, p) && Under(depth, s.notify, x, m) {
      UnderIsDeeper(depth, links, s.notify[m], p);
      UnderIsDeeper(depth, s.notify, x, m);
      if x != p {
        WiderApart(depth, s, links, m, links[x], p);
      }
    }
  }

  lemma AnnounceSizesMember(depth: Depth, s: Sys, m: Node, n: nat)
    requires Structure(depth, s) && Enabled(depth, s, Announce(m, n))
    ensures Sized(depth, Apply(depth, s, Announce(m, n)), m)
  {
    var s', f := Apply(depth, s, Announce(m, n)), UnderF(depth, s.notify, m);
    ItsOwn(depth, s.notify, m);
    forall t | t in s.tokens ensures !StrayF(depth, s.notify, m)(t) {
      var k :| 0 <= k < |s.tokens| && s.tokens[k] == t;
      assert t.member in s.notify && s.notify[t.member] == t.at;
    }
    hide Under, Count;
    CountConcat(s.carriers, Copies(m, n), f);
    CountAll(Copies(m, n), f);
    CountNone(s.tokens, StrayF(depth, s.notify, m));
    assert CountsFor(depth, s', s.notify, m);
  }

  lemma ItsOwn(depth: Depth, links: Links, m: Node)
    requires Forest(depth, links)
    ensures Under(depth, links, m, m)
  {
  }

  lemma AnnounceSizesAbove(depth: Depth, s: Sys, m: Node, n: nat, links: Links, p: Node)
    requires Structure(depth, s) && Enabled(depth, s, Announce(m, n))
    requires CountsFor(depth, s, links, p) && CoversSize(depth, s, links, p)
    requires m !in links && Under(depth, links, s.notify[m], p)
    ensures CoversSize(depth, Apply(depth, s, Announce(m, n)), Wider(depth, s, links, m), p)
  {
    var s', wider := Apply(depth, s, Announce(m, n)), Wider(depth, s, links, m);
    var f, g, h := UnderF(depth, links, p), UnderF(depth, s.notify, m), UnderF(depth, wider, p);
    forall x ensures (h(x) <==> f(x) || g(x)) && !(f(x) && g(x)) {
      WiderUnder(depth, s, links, m, x, p);
      WiderApart(depth, s, links, m, x, p);
    }
    ItsOwn(depth, s.notify, m);
    forall t | t in s.tokens && StrayF(depth, wider, p)(t) ensures StrayF(depth, links, p)(t) {
      var k :| 0 <= k < |s.tokens| && s.tokens[k] == t;
      assert t.member in s.notify && s.notify[t.member] == t.at;
      assert h(t.at) && !h(t.member);
      assert g(t.at) ==> g(t.member);
    }
    hide Under, Count, Wider, Structure;
    CountEither(s.items, f, g, h);
    CountConcat(s.carriers, Copies(m, n), h);
    CountImplies(s.carriers, f, h);
    CountAll(Copies(m, n), h);
    CountImplies(s.tokens, StrayF(depth, wider, p), StrayF(depth, links, p));
    forall path | path in s.consumers && InsideF(depth, links, p)(path) ensures InsideF(depth, wider, p)(path) {
      assert f(Last(path)) && h(Last(path));
    }
    CountImplies(s.consumers, InsideF(depth, links, p), InsideF(depth, wider, p));
  }

  lemma WiderCounts(depth: Depth, s: Sys, m: Node, n: nat, links: Links, p: Node)
    requires Structure(depth, s) && Enabled(depth, s, Announce(m, n))
    requires CountsFor(depth, s, links, p) && m !in links && Under(depth, links, s.notify[m], p)
    ensures CountsFor(depth, Apply(depth, s, Announce(m, n)), Wider(depth, s, links, m), p)
  {
    var s', wider := Apply(depth, s, Announce(m, n)), Wider(depth, s, links, m);
    forall x | x in s'.par && Under(depth, wider, s'.par[x], p) ensures x in wider {
      WiderUnder(depth, s, links, m, s'.par[x], p);
    }
  }

  lemma AnnounceSizes(depth: Depth, s: Sys, m: Node, n: nat, p: Node)
    requires Structure(depth, s) && Enabled(depth, s, Announce(m, n)) && Sized(depth, s, p)
    ensures Sized(depth, Apply(depth, s, Announce(m, n)), p)
  {
    hide CoversSize, Count;
    var links :| CountsFor(depth, s, links, p) && CoversSize(depth, s, links, p);
    if m !in links && Under(depth, links, s.notify[m], p) {
      WiderCounts(depth, s, m, n, links, p);
      AnnounceSizesAbove(depth, s, m, n, links, p);
    } else {
      var s' := Apply(depth, s, Announce(m, n));
      AnnounceSizesElsewhere(depth, s, m, n, links, p);
      assert CountsFor(depth, s', links, p);
    }
  }

  lemma AnnounceSizesElsewhere(depth: Depth, s: Sys, m: Node, n: nat, links: Links, p: Node)
    requires Structure(depth, s) && Enabled(depth, s, Announce(m, n))
    requires Forest(depth, links) && CoversSize(depth, s, links, p)
    ensures CoversSize(depth, Apply(depth, s, Announce(m, n)), links, p)
  {
    hide Count, Under;
    CountConcat(s.carriers, Copies(m, n), UnderF(depth, links, p));
  }

  lemma SizeKeeps(depth: Depth, s: Sys, e: Event, links: Links, p: Node)
    requires Structure(depth, s) && Enabled(depth, s, e) && !e.Announce? && p in s.par
    requires CountsFor(depth, s, links, p) && CoversSize(depth, s, links, p)
    requires e.Fail? ==> p != Last(s.consumers[e.i])
    ensures CoversSize(depth, Apply(depth, s, e), links, p)
  {
    hide CoversSize, Count, Under, Apply, CountsFor;
    assert Forest(depth, links) by { ForestOf(depth, s, links, p); }
    match e
    case Install(_, _) => InstallSized(depth, s, e, links, p);
    case Deliver(x) => DeliverSized(depth, s, x, links, p);
    case Notify(i) => NotifySized(depth, s, i, links, p);
    case Enter(q) => EnterSized(depth, s, q, links, p);
    case Pop(i) => PopSized(depth, s, i, links, p);
    case Fail(i) => FailSized(depth, s, i, links, p);
    case Take(i, j) => TakeSized(depth, s, i, j, links, p);
    case Drain(j) => DrainSized(depth, s, j, links, p);
  }

  lemma ForestOf(depth: Depth, s: Sys, links: Links, p: Node)
    requires CountsFor(depth, s, links, p)
    ensures Forest(depth, links)
  {
  }

  lemma CountsForKeeps(depth: Depth, s: Sys, e: Event, links: Links, p: Node)
    requires Structure(depth, s) && Enabled(depth, s, e) && !e.Announce? && CountsFor(depth, s, links, p)
    ensures CountsFor(depth, Apply(depth, s, e), links, p)
  {
    hide Under, Count;
  }

  /** But for a select that a consumer gives up on, a covered size stays covered. */
  lemma SizedKeeps(depth: Depth, s: Sys, e: Event, p: Node)
    requires Structure(depth, s) && Enabled(depth, s, e) && Sized(depth, s, p) && p in s.par
    requires e.Fail? ==> p != Last(s.consumers[e.i])
    ensures Sized(depth, Apply(depth, s, e), p)
  {
    hide CoversSize, Apply, Structure;
    if e.Announce? {
      AnnounceSizes(depth, s, e.m, e.n, p);
    } else {
      var links :| CountsFor(depth, s, links, p) && CoversSize(depth, s, links, p);
      CountsForKeeps(depth, s, e, links, p);
      SizeKeeps(depth, s, e, links, p);
    }
  }

  lemma InstallSized(depth: Depth, s: Sys, e: Event, links: Links, p: Node)
    requires Structure(depth, s) && Enabled(depth, s, e) && e.Install?
    requires Forest(depth, links) && CoversSize(depth, s, links, p)
    ensures CoversSize(depth, Apply(depth, s, e), links, p)
  {
  }

  // ---------------------------------------------------------------- steps: the tokens

  lemma NotifyCoversTokens(depth: Depth, s: Sys, i: nat, p: Node)
    requires Structure(depth, s) && Enabled(depth, s, Notify(i)) && CoversTokens(s, p) && p in s.par
    ensures CoversTokens(Apply(depth, s, Notify(i)), p)
  {
    hide Count;
    var m := s.carriers[i];
    CountRemove(s.carriers, i, IsF(p));
    if m in s.notify {
      var t := Token(s.notify[m], m);
      CountSnoc(RemoveAt(s.carriers, i), t.at, IsF(p));
      CountSnoc(s.tokens, t, ForF(p));
      CountSnoc(s.tokens, t, InF(p));
    }
  }

  lemma PopCoversTokens(depth: Depth, s: Sys, i: nat, p: Node)
    requires Structure(depth, s) && Enabled(depth, s, Pop(i)) && CoversTokens(s, p)
    ensures CoversTokens(Apply(depth, s, Pop(i)), p)
  {
    hide Count, Holds;
    var path := s.consumers[i];
    var k := FirstToken(s.tokens, Last(path));
    var m := s.tokens[k].member;
    NotHeldTwice(depth, s, path, m);
    CountRemove(s.tokens, k, ForF(p));
    CountRemove(s.tokens, k, InF(p));
    CountUpdate(s.consumers, i, path + [m], HoldsF(p));
    CountUpdate(s.consumers, i, path + [m], BeyondF(p));
  }

  lemma FailCoversTokens(depth: Depth, s: Sys, i: nat, p: Node)
    requires Structure(depth, s) && Enabled(depth, s, Fail(i)) && CoversTokens(s, p) && p != Last(s.consumers[i])
    ensures CoversTokens(Apply(depth, s, Fail(i)), p)
  {
    hide Count, Holds;
    var path := s.consumers[i];
    DroppedOne(depth, s, path);
    CountUpdate(s.consumers, i, path[..|path| - 1], HoldsF(p));
    CountUpdate(s.consumers, i, path[..|path| - 1], BeyondF(p));
  }

  lemma TokensKeep(depth: Depth, s: Sys, e: Event, p: Node)
    requires Structure(depth, s) && Enabled(depth, s, e) && CoversTokens(s, p) && p in s.par && p in s.selects
    requires e.Fail? ==> p != Last(s.consumers[e.i])
    ensures CoversTokens(Apply(depth, s, e), p)
  {
    hide Count;
    match e
    case Install(_, _) =>
    case Announce(m, n) => CountConcat(s.carriers, Copies(m, n), IsF(p));
    case Deliver(x) => CountSnoc(s.carriers, x, IsF(p));
    case Notify(i) => NotifyCoversTokens(depth, s, i, p);
    case Enter(q) =>
      CountSnoc(s.consumers, [q], HoldsF(p));
      CountSnoc(s.consumers, [q], BeyondF(p));
    case Pop(i) => PopCoversTokens(depth, s, i, p);
    case Fail(i) => FailCoversTokens(depth, s, i, p);
    case Take(i, j) =>
      CountRemove(s.consumers, i, HoldsF(p));
      CountRemove(s.consumers, i, BeyondF(p));
    case Drain(j) =>
  }

  // ---------------------------------------------------------------- steps: giving up

  /** A consumer that gives up on `q` gives up a token that is not needed. */
  lemma NothingThere(depth: Depth, s: Sys, s': Sys, q: Node)
    requires Structure(depth, s) && s' == s.(consumers := s'.consumers)
    requires if q in s.selects then !HasToken(s.tokens, q) else q !in s.items
    ensures Covered(depth, s', q) && (q !in s.selects ==> Sized(depth, s', q))
  {
    if q in s.selects {
      CountNone(s.tokens, InF(q));
      CountImplies(s'.consumers, BeyondF(q), HoldsF(q));
      forall t | t in s.tokens ensures t.at != q {
        var k :| 0 <= k < |s.tokens| && s.tokens[k] == t;
      }
    } else {
      forall x | x in s.items ensures !Under(depth, s.notify, x, q) {
        NothingUnderLeaf(depth, s, x, q);
      }
      CountNone(s.items, UnderF(depth, s.notify, q));
      forall t | t in s.tokens ensures !Under(depth, s.notify, t.at, q) {
        NothingUnderLeaf(depth, s, t.at, q);
      }
      CountNone(s.tokens, StrayF(depth, s.notify, q));
      assert CountsFor(depth, s', s.notify, q);
    }
  }

  lemma {:induction false} NothingUnderLeaf(depth: Depth, s: Sys, x: Node, q: Node)
    requires Structure(depth, s) && q !in s.selects
    ensures Under(depth, s.notify, x, q) ==> x == q
    decreases depth(x)
  {
    if x != q && x in s.notify {
      NothingUnderLeaf(depth, s, s.notify[x], q);
    }
  }

  // ---------------------------------------------------------------- runs

  /** Paths that were good stay so when only memberships are added. */
  lemma PathsKeep(depth: Depth, s: Sys, e: Event)
    requires Structure(depth, s) && Enabled(depth, s, e)
    ensures forall j :: 0 <= j < |Apply(depth, s, e).consumers| ==>
      PathOk(Apply(depth, s, e), Apply(depth, s, e).consumers[j])
  {
    hide Under, Count, Forest, Size;
    var s' := Apply(depth, s, e);
    if e.Pop? {
      NotHeldTwice(depth, s, s.consumers[e.i], s.tokens[FirstToken(s.tokens, Last(s.consumers[e.i]))].member);
    } else if e.Fail? {
      DroppedOne(depth, s, s.consumers[e.i]);
    }
    forall j | 0 <= j < |s'.consumers| ensures PathOk(s', s'.consumers[j]) {
      assert PathOk(s, s'.consumers[j]);
    }
  }

  lemma StructureKeeps(depth: Depth, s: Sys, e: Event)
    requires Structure(depth, s) && Enabled(depth, s, e)
    ensures Structure(depth, Apply(depth, s, e))
  {
    PathsKeep(depth, s, e);
    hide Under, Count, PathOk, HasToken, Last, Size;
  }

  lemma StepKeeps(depth: Depth, s: Sys, e: Event)
    requires Inv(depth, s) && Enabled(depth, s, e)
    ensures Inv(depth, Apply(depth, s, e))
  {
    hide Sized, CoversTokens, Count;
    StructureKeeps(depth, s, e);
    var s' := Apply(depth, s, e);
    forall p | p in s'.par ensures Covered(depth, s', p) {
      if p !in s.par {
        AnnounceSizesMember(depth, s, e.m, e.n);
      } else if e.Fail? && p == Last(s.consumers[e.i]) {
        NothingThere(depth, s, s', p);
      } else if Sized(depth, s, p) {
        SizedKeeps(depth, s, e, p);
      } else {
        TokensKeep(depth, s, e, p);
      }
    }
  }

  function Start(selects: set<Node>): Sys
  {
    Sys(selects, map[], map[], [], [], [], [])
  }

  ghost predicate CanRun(depth: Depth, s: Sys, events: seq<Event>)
    decreases |events|
  {
    events == [] ||
    (Structure(depth, s) && Enabled(depth, s, events[0]) && CanRun(depth, Apply(depth, s, events[0]), events[1..]))
  }

  ghost function Run(depth: Depth, s: Sys, events: seq<Event>): Sys
    requires CanRun(depth, s, events)
    decreases |events|
  {
    if events == [] then s else Run(depth, Apply(depth, s, events[0]), events[1..])
  }

  lemma {:induction false} RunKeeps(depth: Depth, s: Sys, events: seq<Event>)
    requires Inv(depth, s) && CanRun(depth, s, events)
    ensures Inv(depth, Run(depth, s, events))
    decreases |events|
  {
    hide Enabled, Apply, Covered;
    if events != [] {
      StepKeeps(depth, s, events[0]);
      RunKeeps(depth, Apply(depth, s, events[0]), events[1..]);
    }
  }

  lemma ParForest(depth: Depth, s: Sys)
    requires Structure(depth, s)
    ensures Forest(depth, s.par)
  {
  }

  /** What belongs to `m` through complete memberships is among what counts for it. */
  lemma {:induction false} CountsAllAdded(depth: Depth, s: Sys, links: Links, x: Node, m: Node)
    requires Structure(depth, s) && CountsFor(depth, s, links, m) && Forest(depth, s.par) && Under(depth, s.par, x, m)
    ensures Under(depth, links, x, m)
    decreases depth(x)
  {
    if x != m {
      CountsAllAdded(depth, s, links, s.par[x], m);
      assert x in links && links[x] == s.par[x];
    }
  }

  /** No notification is on its way, and no consumer has a token in hand. */
  predicate AtRest(s: Sys)
  {
    s.carriers == [] && forall i :: 0 <= i < |s.consumers| ==> |s.consumers[i]| == 1
  }

  /** At rest, a member whose select has no token in its latch holds nothing, or has no token either. */
  lemma NoTokenAbove(depth: Depth, s: Sys, m: Node)
    requires Inv(depth, s) && AtRest(s) && m in s.par && !HasToken(s.tokens, s.par[m]) && Forest(depth, s.par)
    ensures (forall x :: x in s.items ==> !Under(depth, s.par, x, m)) || (m in s.selects && !HasToken(s.tokens, m))
  {
    hide Under;
    assert Covered(depth, s, m);
    forall t | t in s.tokens ensures t.member != m {
      var k :| 0 <= k < |s.tokens| && s.tokens[k] == t;
    }
    CountNone(s.tokens, ForF(m));
    forall path | path in s.consumers ensures !Holds(path, m) {
    }
    CountNone(s.consumers, HoldsF(m));
    if Sized(depth, s, m) {
      var links :| CountsFor(depth, s, links, m) && CoversSize(depth, s, links, m);
      CountNone(s.consumers, InsideF(depth, links, m));
      CountNone(s.items, UnderF(depth, links, m));
      forall x | x in s.items ensures !Under(depth, s.par, x, m) {
        if Under(depth, s.par, x, m) {
          CountsAllAdded(depth, s, links, x, m);
        }
      }
    } else {
      CountNone(s.tokens, InF(m));
      assert forall k :: 0 <= k < |s.tokens| ==> !InF(m)(s.tokens[k]);
    }
  }

  lemma {:induction false} NothingUnder(depth: Depth, s: Sys, root: Node, y: Node, x: Node)
    requires Inv(depth, s) && AtRest(s) && !HasToken(s.tokens, root) && root in s.selects && Forest(depth, s.par)
    requires Under(depth, s.par, y, root) && Under(depth, s.par, x, y) && x in s.items
    ensures y in s.selects && !HasToken(s.tokens, y)
    decreases depth(y)
  {
    hide Covered;
    if y != root {
      NothingUnder(depth, s, root, s.par[y], x) by {
        UnderOneUp(depth, s.par, x, y);
      }
      NoTokenAbove(depth, s, y);
    }
  }

  lemma {:induction false} UnderOneUp(depth: Depth, links: Links, x: Node, y: Node)
    requires Forest(depth, links) && y in links && Under(depth, links, x, y)
    ensures Under(depth, links, x, links[y])
    decreases depth(x)
  {
    if x != y {
      UnderOneUp(depth, links, links[x], y);
    }
  }

  /**
   No event is lost: when no notification is on its way and no consumer is part-way, every select
   that an item is held under, at any depth of nesting, has a token, so `get_event` on it does not block.
   */
  lemma GetEventDoesNotBlock(depth: Depth, selects: set<Node>, events: seq<Event>, root: Node, x: Node)
    requires CanRun(depth, Start(selects), events)
    requires var s := Run(depth, Start(selects), events);
             && Forest(depth, s.par) && AtRest(s)
             && x in s.items && root in s.selects && Under(depth, s.par, x, root)
    ensures HasToken(Run(depth, Start(selects), events).tokens, root)
  {
    hide Covered, Under;
    var s := Run(depth, Start(selects), events);
    RunKeeps(depth, Start(selects), events);
    if !HasToken(s.tokens, root) {
      ItsOwn(depth, s.par, x);
      NothingUnder(depth, s, root, x, x);
    }
  }

  // ---------------------------------------------------------------- notifications come to an end

  /** How many selects the notifications on their way may still reach. */
  function Climbing(depth: Depth, carriers: seq<Node>): nat
  {
    if carriers == [] then 0
    else Climbing(depth, carriers[..|carriers| - 1]) + 1 + depth(carriers[|carriers| - 1])
  }

  lemma ClimbingSnoc(depth: Depth, carriers: seq<Node>, m: Node)
    ensures Climbing(depth, carriers + [m]) == Climbing(depth, carriers) + 1 + depth(m)
  {
    assert (carriers + [m])[..|carriers|] == carriers;
  }

  lemma {:induction false} ClimbingRemove(depth: Depth, carriers: seq<Node>, i: nat)
    requires i < |carriers|
    ensures Climbing(depth, carriers) == Climbing(depth, RemoveAt(carriers, i)) + 1 + depth(carriers[i])
    decreases |carriers|
  {
    var init, last := carriers[..|carriers| - 1], carriers[|carriers| - 1];
    if i == |init| {
      assert RemoveAt(carriers, i) == init;
    } else {
      ClimbingRemove(depth, init, i);
      assert RemoveAt(carriers, i) == RemoveAt(init, i) + [last];
      ClimbingSnoc(depth, RemoveAt(init, i), last);
    }
  }

  /** Each notification either ends, at a node that belongs to no select, or goes one level up. */
  lemma NotifyUsesUp(depth: Depth, s: Sys, i: nat)
    requires Structure(depth, s) && Enabled(depth, s, Notify(i))
    ensures Climbing(depth, Apply(depth, s, Notify(i)).carriers) < Climbing(depth, s.carriers)
  {
    ClimbingRemove(depth, s.carriers, i);
    if s.carriers[i] in s.notify {
      ClimbingSnoc(depth, RemoveAt(s.carriers, i), s.notify[s.carriers[i]]);
    }
  }

  /** So whatever is under way, after some more notifications none is. */
  lemma {:induction false} NotificationsFinish(depth: Depth, s: Sys) returns (events: seq<Event>)
    requires Inv(depth, s)
    ensures CanRun(depth, s, events) && forall k :: 0 <= k < |events| ==> events[k].Notify?
    ensures var s' := Run(depth, s, events);
            s'.carriers == [] && s'.items == s.items && s'.consumers == s.consumers && s'.par == s.par
    decreases Climbing(depth, s.carriers)
  {
    hide Structure, Covered, Climbing;
    events := [];
    if s.carriers != [] {
      var s' := Apply(depth, s, Notify(0));
      NotifyUsesUp(depth, s, 0);
      StepKeeps(depth, s, Notify(0));
      var rest := NotificationsFinish(depth, s');
      events := [Notify(0)] + rest;
      assert events[1..] == rest;
    }
  }

  /** In every run, every member is covered as `Covered` says. */
  lemma EveryMemberIsCovered(depth: Depth, selects: set<Node>, events: seq<Event>, m: Node)
    requires CanRun(depth, Start(selects), events) && m in Run(depth, Start(selects), events).par
    ensures Covered(depth, Run(depth, Start(selects), events), m)
  {
    RunKeeps(depth, Start(selects), events);
  }

  // ---------------------------------------------------------------- when the plain count is enough

  /** Every thread reads a select that belongs to no other. */
  predicate TopReaders(s: Sys)
  {
    forall i :: 0 <= i < |s.consumers| && s.consumers[i] != [] ==> s.consumers[i][0] !in s.notify
  }

  /** A thread starts at such a select, and a select that is being read is not added to another. */
  predicate Disciplined(s: Sys, e: Event)
  {
    && (e.Enter? ==> e.p !in s.notify)
    && (e.Install? ==> forall i :: 0 <= i < |s.consumers| && s.consumers[i] != [] ==> s.consumers[i][0] != e.m)
  }

  ghost predicate TopInv(depth: Depth, s: Sys)
  {
    Structure(depth, s) && TopReaders(s) && forall m :: m in s.par ==> Sized(depth, s, m)
  }

  /** A consumer under a member has come through it. */
  lemma {:induction false} CameThrough(depth: Depth, s: Sys, path: seq<Node>, k: nat, links: Links, q: Node)
    requires Structure(depth, s) && PathOk(s, path) && path[0] !in s.notify && k < |path| && q in s.notify
    requires Forest(depth, links) && (forall x :: x in links ==> x in s.notify && s.notify[x] == links[x])
    requires Under(depth, links, path[k], q)
    ensures Holds(path, q)
    decreases k
  {
    if path[k] == q {
      assert k > 0 && path[1..][k - 1] == q;
    } else {
      assert k > 0 && s.notify[path[k]] == path[k - 1];
      CameThrough(depth, s, path, k - 1, links, q);
    }
  }

  /** Under `q`, and not `q` itself. */
  ghost function BelowF(depth: Depth, links: Links, q: Node): Node -> bool
    requires Forest(depth, links)
  {
    (x: Node) => x != q && Under(depth, links, x, q)
  }

  ghost function AtBelowF(depth: Depth, links: Links, q: Node): seq<Node> -> bool
    requires Forest(depth, links)
  {
    path => path != [] && Last(path) != q && Under(depth, links, Last(path), q)
  }

  ghost function StrayBelowF(depth: Depth, links: Links, q: Node): Token -> bool
    requires Forest(depth, links)
  {
    (t: Token) => t.at != q && Under(depth, links, t.at, q) && !Under(depth, links, t.member, q)
  }

  /** `links` are memberships under `q`, through the members `cs` of it, and have all the complete ones. */
  ghost predicate Gathered(depth: Depth, s: Sys, q: Node, cs: set<Node>, links: Links)
  {
    && Forest(depth, links) && cs <= links.Keys
    && (forall x :: x in links ==> x in s.notify && s.notify[x] == links[x] && Under(depth, links, x, q))
    && (forall x :: x in links && links[x] == q ==> x in cs)
    && (forall x :: x in s.par && s.par[x] in links ==> x in links)
  }

  /** Consumers and notifications below `q` cover what is held there. */
  ghost predicate CoversBelow(depth: Depth, s: Sys, q: Node, links: Links)
    requires Forest(depth, links)
  {
    Count(s.consumers, AtBelowF(depth, links, q)) + Count(s.carriers, BelowF(depth, links, q))
      >= Count(s.items, BelowF(depth, links, q)) + Count(s.tokens, StrayBelowF(depth, links, q))
  }

  /** What counts for the member `c`, and `c`, put to `links`. */
  ghost function With(depth: Depth, s: Sys, links: Links, more: Links, c: Node): Links
    requires Forest(depth, more)
  {
    map x | x in s.notify && (x in links || Under(depth, more, x, c)) :: s.notify[x]
  }

  lemma {:induction false} WithUnder(depth: Depth, s: Sys, q: Node, cs: set<Node>, links: Links, more: Links,
                                     c: Node, x: Node)
    requires Structure(depth, s) && Gathered(depth, s, q, cs, links) && CountsFor(depth, s, more, c)
    requires c in s.notify && s.notify[c] == q
    ensures Forest(depth, With(depth, s, links, more, c))
    ensures Under(depth, With(depth, s, links, more, c), x, q) <==>
      Under(depth, links, x, q) || Under(depth, more, x, c)
    decreases depth(x)
  {
    if x in s.notify {
      WithUnder(depth, s, q, cs, links, more, c, s.notify[x]);
    }
  }

  lemma {:induction false} WithApart(depth: Depth, s: Sys, q: Node, cs: set<Node>, links: Links, more: Links,
                                     c: Node, x: Node)
    requires Structure(depth, s) && Gathered(depth, s, q, cs, links) && CountsFor(depth, s, more, c)
    requires c in s.notify && s.notify[c] == q && c !in cs
    ensures !(Under(depth, links, x, q) && Under(depth, more, x, c))
    decreases depth(x)
  {
    if Under(depth, links, x, q) && Under(depth, more, x, c) {
      UnderIsDeeper(depth, more, x, c);
      if x != c {
        UnderIsDeeper(depth, more, more[x], c);
        WithApart(depth, s, q, cs, links, more, c, more[x]);
      }
    }
  }

  lemma WithIsGathered(depth: Depth, s: Sys, q: Node, cs: set<Node>, links: Links, more: Links, c: Node)
    requires Structure(depth, s) && Gathered(depth, s, q, cs, links) && CountsFor(depth, s, more, c)
    requires c in s.notify && s.notify[c] == q && c !in cs
    ensures Gathered(depth, s, q, cs + {c}, With(depth, s, links, more, c))
  {
    var both := With(depth, s, links, more, c);
    forall x ensures Under(depth, both, x, q) <==> Under(depth, links, x, q) || Under(depth, more, x, c) {
      WithUnder(depth, s, q, cs, links, more, c, x);
    }
    WithUnder(depth, s, q, cs, links, more, c, q);
    ItsOwn(depth, more, c);
    forall x | x in both && both[x] == q ensures x in cs + {c} {
      if x !in links && x != c {
        UnderIsDeeper(depth, more, more[x], c);
      }
    }
    forall x | x in s.par && s.par[x] in both ensures x in both {
      if s.par[x] !in links {
        assert x in more && more[x] == s.par[x];
      }
    }
  }

  lemma WithCovers(depth: Depth, s: Sys, q: Node, cs: set<Node>, links: Links, more: Links, c: Node)
    requires Structure(depth, s) && Gathered(depth, s, q, cs, links) && CountsFor(depth, s, more, c)
    requires c in s.notify && s.notify[c] == q && c !in cs && !HasToken(s.tokens, q)
    requires CoversBelow(depth, s, q, links) && CoversSize(depth, s, more, c)
    ensures Forest(depth, With(depth, s, links, more, c))
    ensures CoversBelow(depth, s, q, With(depth, s, links, more, c))
  {
    var both := With(depth, s, links, more, c);
    WithUnder(depth, s, q, cs, links, more, c, q);
    var f, g, h := BelowF(depth, links, q), UnderF(depth, more, c), BelowF(depth, both, q);
    forall x ensures (h(x) <==> f(x) || g(x)) && !(f(x) && g(x)) {
      WithUnder(depth, s, q, cs, links, more, c, x);
      WithApart(depth, s, q, cs, links, more, c, x);
      if g(x) {
        UnderIsDeeper(depth, more, x, c);
      }
    }
    forall x ensures Under(depth, both, x, q) <==> Under(depth, links, x, q) || g(x) {
      WithUnder(depth, s, q, cs, links, more, c, x);
    }
    hide Count, Gathered, CountsFor, Structure, With;
    SumsUp(depth, s, q, links, more, c, both);
    NoTokensFor(depth, s, c, q);
  }

  lemma NoTokensFor(depth: Depth, s: Sys, c: Node, q: Node)
    requires Structure(depth, s) && c in s.notify && s.notify[c] == q && !HasToken(s.tokens, q)
    ensures Count(s.tokens, ForF(c)) == 0
  {
    forall t | t in s.tokens ensures t.member != c {
      var k :| 0 <= k < |s.tokens| && s.tokens[k] == t;
    }
    CountNone(s.tokens, ForF(c));
  }

  lemma SumsUp(depth: Depth, s: Sys, q: Node, links: Links, more: Links, c: Node, both: Links)
    requires Forest(depth, links) && Forest(depth, more) && Forest(depth, both)
    requires var f, g, h := BelowF(depth, links, q), UnderF(depth, more, c), BelowF(depth, both, q);
             forall x :: (h(x) <==> f(x) || g(x)) && !(f(x) && g(x))
    requires forall x :: Under(depth, both, x, q) <==> Under(depth, links, x, q) || Under(depth, more, x, c)
    ensures Count(s.items, BelowF(depth, both, q)) ==
      Count(s.items, BelowF(depth, links, q)) + Count(s.items, UnderF(depth, more, c))
    ensures Count(s.carriers, BelowF(depth, both, q)) ==
      Count(s.carriers, BelowF(depth, links, q)) + Count(s.carriers, UnderF(depth, more, c))
    ensures Count(s.consumers, AtBelowF(depth, both, q)) >=
      Count(s.consumers, AtBelowF(depth, links, q)) + Count(s.consumers, InsideF(depth, more, c))
    ensures Count(s.tokens, StrayBelowF(depth, both, q)) <=
      Count(s.tokens, StrayBelowF(depth, links, q)) + Count(s.tokens, StrayF(depth, more, c))
  {
    hide Count, Under;
    var f, g, h := BelowF(depth, links, q), UnderF(depth, more, c), BelowF(depth, both, q);
    CountEither(s.items, f, g, h);
    CountEither(s.carriers, f, g, h);
    var at: seq<Node> -> bool := path => path != [] && g(Last(path));
    CountImplies(s.consumers, InsideF(depth, more, c), at);
    forall path | path in s.consumers
      ensures (AtBelowF(depth, both, q)(path) <==> AtBelowF(depth, links, q)(path) || at(path))
      ensures !(AtBelowF(depth, links, q)(path) && at(path))
    {
      if path != [] {
        assert h(Last(path)) <==> f(Last(path)) || g(Last(path));
      }
    }
    CountEither(s.consumers, AtBelowF(depth, links, q), at, AtBelowF(depth, both, q));
    forall t | t in s.tokens && StrayBelowF(depth, both, q)(t)
      ensures StrayBelowF(depth, links, q)(t) || StrayF(depth, more, c)(t)
    {
      assert h(t.at) && (f(t.at) || g(t.at));
    }
    CountAtMost(s.tokens, StrayBelowF(depth, links, q), StrayF(depth, more, c), StrayBelowF(depth, both, q));
  }

  lemma GatherOne(depth: Depth, s: Sys, q: Node, cs: set<Node>, rest: Links, c: Node) returns (links: Links)
    requires Structure(depth, s) && Sized(depth, s, c) && c in s.notify && s.notify[c] == q && c !in cs
    requires Gathered(depth, s, q, cs, rest) && CoversBelow(depth, s, q, rest) && !HasToken(s.tokens, q)
    ensures Gathered(depth, s, q, cs + {c}, links) && CoversBelow(depth, s, q, links)
  {
    hide CoversSize, CoversBelow, Gathered, Structure;
    GatheredForest(depth, s, q, cs, rest);
    var more :| CountsFor(depth, s, more, c) && CoversSize(depth, s, more, c);
    links := With(depth, s, rest, more, c);
    WithIsGathered(depth, s, q, cs, rest, more, c);
    WithCovers(depth, s, q, cs, rest, more, c);
  }

  lemma GatherNone(depth: Depth, s: Sys, q: Node) returns (links: Links)
    ensures Gathered(depth, s, q, {}, links) && CoversBelow(depth, s, q, links)
  {
    links := map[];
    CountNone(s.items, BelowF(depth, links, q));
    CountNone(s.tokens, StrayBelowF(depth, links, q));
  }

  /** Where no token is left in the latch of `q`, its members, taken together, account for all that is below it. */
  lemma {:induction false} GatherMembers(depth: Depth, s: Sys, q: Node, cs: set<Node>) returns (links: Links)
    requires TopInv(depth, s) && !HasToken(s.tokens, q)
    requires forall c :: c in cs ==> c in s.par && s.par[c] == q
    ensures Gathered(depth, s, q, cs, links) && CoversBelow(depth, s, q, links)
    decreases |cs|
  {
    hide CoversBelow, Gathered, Sized;
    if cs == {} {
      links := GatherNone(depth, s, q);
    } else {
      var c :| c in cs;
      var rest := GatherMembers(depth, s, q, cs - {c});
      GatheredForest(depth, s, q, cs - {c}, rest);
      links := GatherOne(depth, s, q, cs - {c}, rest, c);
      assert cs - {c} + {c} == cs;
    }
  }

  lemma GatheredForest(depth: Depth, s: Sys, q: Node, cs: set<Node>, links: Links)
    requires Gathered(depth, s, q, cs, links)
    ensures Forest(depth, links)
  {
  }

  /** A reader from the top that finds no token in `q` leaves it covered by what is below. */
  lemma TopFailSized(depth: Depth, s: Sys, i: nat)
    requires TopInv(depth, s) && Enabled(depth, s, Fail(i))
    requires var q := Last(s.consumers[i]); q in s.selects && q in s.par
    ensures Sized(depth, Apply(depth, s, Fail(i)), Last(s.consumers[i]))
  {
    var q, s' := Last(s.consumers[i]), Apply(depth, s, Fail(i));
    var cs := set c | c in s.par && s.par[c] == q;
    var links := GatherMembers(depth, s, q, cs);
    GatheredCounts(depth, s, q, cs, links);
    BelowIsEnough(depth, s, i, links);
    assert CountsFor(depth, s', links, q);
  }

  lemma GatheredCounts(depth: Depth, s: Sys, q: Node, cs: set<Node>, links: Links)
    requires Structure(depth, s) && Gathered(depth, s, q, cs, links) && cs == set c | c in s.par && s.par[c] == q
    ensures CountsFor(depth, s, links, q)
  {
    forall x | x in s.par && Under(depth, links, s.par[x], q) ensures x in links {
      if s.par[x] == q {
        assert x in cs;
      }
    }
  }

  lemma LeavesNoneBelow(depth: Depth, s: Sys, i: nat, links: Links)
    requires Structure(depth, s) && Enabled(depth, s, Fail(i)) && Forest(depth, links)
    ensures var q, s' := Last(s.consumers[i]), Apply(depth, s, Fail(i));
            Count(s'.consumers, AtBelowF(depth, links, q)) == Count(s.consumers, AtBelowF(depth, links, q))
  {
    hide Count;
    var path := s.consumers[i];
    var q := Last(path);
    DroppedOne(depth, s, path);
    if Under(depth, links, s.notify[q], q) {
      UnderIsDeeper(depth, links, s.notify[q], q);
    }
    var f := AtBelowF(depth, links, q);
    assert !f(path);
    assert !f(path[..|path| - 1]);
    CountUpdate(s.consumers, i, path[..|path| - 1], f);
  }

  lemma BelowIsInside(depth: Depth, s: Sys, i: nat, links: Links)
    requires Structure(depth, s) && TopReaders(s) && Enabled(depth, s, Fail(i))
    requires Last(s.consumers[i]) in s.notify && CountsFor(depth, s, links, Last(s.consumers[i]))
    ensures var q, s' := Last(s.consumers[i]), Apply(depth, s, Fail(i));
            Count(s'.consumers, InsideF(depth, links, q)) >= Count(s.consumers, AtBelowF(depth, links, q))
  {
    hide Count, Structure, TopReaders;
    var s', q := Apply(depth, s, Fail(i)), Last(s.consumers[i]);
    LeavesNoneBelow(depth, s, i, links);
    forall p | p in s'.consumers && AtBelowF(depth, links, q)(p) ensures InsideF(depth, links, q)(p) {
      var j :| 0 <= j < |s'.consumers| && s'.consumers[j] == p;
      StillOk(depth, s, i, j);
      assert p[|p| - 1] == Last(p) && Under(depth, links, Last(p), q);
      CameThrough(depth, s, p, |p| - 1, links, q);
    }
    CountImplies(s'.consumers, AtBelowF(depth, links, q), InsideF(depth, links, q));
  }

  lemma StillOk(depth: Depth, s: Sys, i: nat, j: nat)
    requires Structure(depth, s) && TopReaders(s) && Enabled(depth, s, Fail(i)) && j < |s.consumers|
    ensures var p := Apply(depth, s, Fail(i)).consumers[j]; PathOk(s, p) && p[0] !in s.notify
  {
    PathsKeep(depth, s, Fail(i));
    assert PathOk(s, s.consumers[j]);
  }

  lemma BelowIsEnough(depth: Depth, s: Sys, i: nat, links: Links)
    requires Structure(depth, s) && TopReaders(s) && Enabled(depth, s, Fail(i))
    requires var q := Last(s.consumers[i]);
             && q in s.selects && q in s.par && CountsFor(depth, s, links, q) && CoversBelow(depth, s, q, links)
    ensures CoversSize(depth, Apply(depth, s, Fail(i)), links, Last(s.consumers[i]))
  {
    var q := Last(s.consumers[i]);
    BelowIsInside(depth, s, i, links);
    forall x | x in s.items && UnderF(depth, links, q)(x) ensures BelowF(depth, links, q)(x) {
      var k :| 0 <= k < |s.items| && s.items[k] == x;
    }
    forall t | t in s.tokens && StrayF(depth, links, q)(t) ensures StrayBelowF(depth, links, q)(t) {
      var k :| 0 <= k < |s.tokens| && s.tokens[k] == t;
    }
    hide Count, Under, Structure, PathOk, TopReaders;
    CountImplies(s.carriers, BelowF(depth, links, q), UnderF(depth, links, q));
    CountImplies(s.items, UnderF(depth, links, q), BelowF(depth, links, q));
    CountImplies(s.tokens, StrayF(depth, links, q), StrayBelowF(depth, links, q));
  }

  lemma TopReadersKeep(depth: Depth, s: Sys, e: Event)
    requires Structure(depth, s) && Enabled(depth, s, e) && TopReaders(s) && Disciplined(s, e)
    ensures TopReaders(Apply(depth, s, e))
  {
    hide Under, Count, Size, HasToken;
    var s' := Apply(depth, s, e);
    forall j | 0 <= j < |s'.consumers| && s'.consumers[j] != [] ensures s'.consumers[j][0] !in s'.notify {
      if !e.Enter? || j < |s.consumers| {
        var k := if e.Take? && j >= e.i then j + 1 else j;
        assert PathOk(s, s.consumers[k]);
        assert s'.consumers[j][0] == s.consumers[k][0];
      }
    }
  }

  lemma TopStepKeeps(depth: Depth, s: Sys, e: Event)
    requires TopInv(depth, s) && Enabled(depth, s, e) && Disciplined(s, e)
    ensures TopInv(depth, Apply(depth, s, e))
  {
    hide Sized, TopReaders, Count;
    StructureKeeps(depth, s, e);
    TopReadersKeep(depth, s, e);
    var s' := Apply(depth, s, e);
    forall p | p in s'.par ensures Sized(depth, s', p) {
      if p !in s.par {
        AnnounceSizesMember(depth, s, e.m, e.n);
      } else if e.Fail? && p == Last(s.consumers[e.i]) {
        if p in s.selects {
          TopFailSized(depth, s, e.i);
        } else {
          NothingThere(depth, s, s', p);
        }
      } else {
        SizedKeeps(depth, s, e, p);
      }
    }
  }

  ghost predicate AllDisciplined(depth: Depth, s: Sys, events: seq<Event>)
    requires CanRun(depth, s, events)
    decreases |events|
  {
    events == [] ||
    (Disciplined(s, events[0]) && AllDisciplined(depth, Apply(depth, s, events[0]), events[1..]))
  }

  lemma {:induction false} TopRunKeeps(depth: Depth, s: Sys, events: seq<Event>)
    requires TopInv(depth, s) && CanRun(depth, s, events) && AllDisciplined(depth, s, events)
    ensures TopInv(depth, Run(depth, s, events))
    decreases |events|
  {
    hide Enabled, Apply, TopInv, Disciplined;
    if events != [] {
      TopStepKeeps(depth, s, events[0]);
      TopRunKeeps(depth, Apply(depth, s, events[0]), events[1..]);
    }
  }

  /**
   As long as threads only read selects that belong to no other, the tokens for a member, the consumers that
   hold one, and the notifications on their way under it reach the number of items under it; and its `size`,
   when no `add` is under way.
   */
  lemma PlainCountSuffices(depth: Depth, selects: set<Node>, events: seq<Event>, m: Node)
    requires CanRun(depth, Start(selects), events) && AllDisciplined(depth, Start(selects), events)
    requires m in Run(depth, Start(selects), events).par
    ensures var s := Run(depth, Start(selects), events);
            && Forest(depth, s.par) && Forest(depth, s.notify)
            && var plain := Count(s.tokens, ForF(m)) + Count(s.consumers, HoldsF(m))
                            + Count(s.carriers, UnderF(depth, s.notify, m));
               && plain >= Count(s.items, UnderF(depth, s.par, m))
               && (s.par == s.notify ==> plain >= Size(depth, s, m))
  {
    TopRunKeeps(depth, Start(selects), events);
    PlainFromSized(depth, Run(depth, Start(selects), events), m);
  }

  lemma PlainFromSized(depth: Depth, s: Sys, m: Node)
    requires Structure(depth, s) && Sized(depth, s, m)
    ensures Forest(depth, s.par)
    ensures Count(s.tokens, ForF(m)) + Count(s.consumers, HoldsF(m)) + Count(s.carriers, UnderF(depth, s.notify, m))
      >= Count(s.items, UnderF(depth, s.par, m))
  {
    var links :| CountsFor(depth, s, links, m) && CoversSize(depth, s, links, m);
    forall x ensures (Under(depth, s.par, x, m) ==> Under(depth, links, x, m))
             ensures (Under(depth, links, x, m) ==> Under(depth, s.notify, x, m)) {
      if Under(depth, s.par, x, m) {
        CountsAllAdded(depth, s, links, x, m);
      }
      if Under(depth, links, x, m) {
        UnderByNotify(depth, s, links, x, m);
      }
    }
    hide Count, Under, CountsFor, Structure;
    CountImplies(s.items, UnderF(depth, s.par, m), UnderF(depth, links, m));
    CountImplies(s.carriers, UnderF(depth, links, m), UnderF(depth, s.notify, m));
    CountImplies(s.consumers, InsideF(depth, links, m), HoldsF(m));
  }

  lemma {:induction false} UnderByNotify(depth: Depth, s: Sys, links: Links, x: Node, m: Node)
    requires Structure(depth, s) && CountsFor(depth, s, links, m) && Under(depth, links, x, m)
    ensures Under(depth, s.notify, x, m)
    decreases depth(x)
  {
    if x != m {
      UnderByNotify(depth, s, links, links[x], m);
    }
  }

  // ---------------------------------------------------------------- and when it is not

  /** Nothing is held, announced or being read. */
  ghost predicate Resting(depth: Depth, s: Sys)
  {
    && Structure(depth, s) && s.par == s.notify
    && s.tokens == [] && s.items == [] && s.carriers == [] && s.consumers == []
  }

  /** Calls of `add` build every graph of memberships without cycles: any resting state can be reached. */
  lemma {:induction false} RestingIsReachable(depth: Depth, s: Sys) returns (events: seq<Event>)
    requires Resting(depth, s)
    ensures CanRun(depth, Start(s.selects), events) && Run(depth, Start(s.selects), events) == s
    decreases |s.notify|
  {
    hide CanRun, Run;
    if s.notify == map[] {
      events := [];
      NoEvents(depth, s);
    } else {
      var m :| m in s.notify;
      var before := s.(notify := s.notify - {m}, par := s.par - {m});
      var p := s.notify[m];
      WithoutOne(depth, s, m);
      events := RestingIsReachable(depth, before);
      var midway := before.(notify := before.notify[m := p]);
      AddsOne(depth, before, p, m);
      events := Step(depth, Start(s.selects), events, before, Install(p, m), midway);
      events := Step(depth, Start(s.selects), events, midway, Announce(m, 0), midway.(par := before.par[m := p]));
      assert midway.(par := before.par[m := p]) == s;
    }
  }

  lemma NoEvents(depth: Depth, s: Sys)
    requires Resting(depth, s) && s.notify == map[]
    ensures CanRun(depth, Start(s.selects), []) && Run(depth, Start(s.selects), []) == s
  {
  }

  lemma WithoutOne(depth: Depth, s: Sys, m: Node)
    requires Resting(depth, s) && m in s.notify
    ensures Resting(depth, s.(notify := s.notify - {m}, par := s.par - {m})) && |s.notify - {m}| < |s.notify|
    ensures (s.notify - {m})[m := s.notify[m]] == s.notify && m !in s.notify - {m}
    ensures s.notify[m] in s.selects && depth(s.notify[m]) < depth(m)
  {
    FewerLinks(s.notify, m);
  }

  lemma FewerLinks(links: Links, m: Node)
    requires m in links
    ensures |links - {m}| < |links|
    ensures (links - {m})[m := links[m]] == links && m !in links - {m}
  {
    assert links.Keys == (links - {m}).Keys + {m};
    assert |links.Keys| == |(links - {m}).Keys| + 1;
  }

  lemma AddsOne(depth: Depth, s: Sys, p: Node, m: Node)
    requires Resting(depth, s) && p in s.selects && m !in s.notify && depth(p) < depth(m)
    ensures var midway := s.(notify := s.notify[m := p]);
            && Leads(depth, s, Install(p, m), midway)
            && Leads(depth, midway, Announce(m, 0), midway.(par := s.par[m := p]))
  {
    var midway := s.(notify := s.notify[m := p]);
    assert Structure(depth, midway);
    assert midway.carriers + Copies(m, 0) == [];
  }

  /** Receiver `x` belongs to a select that belongs to another one. */
  predicate Inner(s: Sys, x: Node)
  {
    x in s.notify && x !in s.selects && s.notify[x] in s.notify
  }

  function Busy(s: Sys, tokens: seq<Token>, items: seq<Node>, carriers: seq<Node>, consumers: seq<seq<Node>>): Sys
  {
    Sys(s.selects, s.notify, s.par, tokens, items, carriers, consumers)
  }

  ghost predicate Leads(depth: Depth, s: Sys, e: Event, s': Sys)
  {
    Structure(depth, s) && Enabled(depth, s, e) && Apply(depth, s, e) == s'
  }

  lemma {:induction false} Longer(depth: Depth, s: Sys, events: seq<Event>, e: Event)
    requires CanRun(depth, s, events) && Structure(depth, Run(depth, s, events))
    requires Enabled(depth, Run(depth, s, events), e)
    ensures CanRun(depth, s, events + [e])
    ensures Run(depth, s, events + [e]) == Apply(depth, Run(depth, s, events), e)
    decreases |events|
  {
    hide Structure, Enabled, Apply;
    if events == [] {
      assert [] + [e] == [e];
      assert [e][1..] == [];
    } else {
      Longer(depth, Apply(depth, s, events[0]), events[1..], e);
      assert (events + [e])[1..] == events[1..] + [e];
    }
  }

  lemma Step(depth: Depth, start: Sys, before: seq<Event>, s: Sys, e: Event, s': Sys) returns (events: seq<Event>)
    requires CanRun(depth, start, before) && Run(depth, start, before) == s && Leads(depth, s, e, s')
    ensures CanRun(depth, start, events) && Run(depth, start, events) == s'
    ensures NoAdds(before) && !e.Install? && !e.Announce? ==> NoAdds(events)
  {
    hide CanRun, Run;
    Longer(depth, start, before, e);
    events := before + [e];
  }

  /** An item arrives in `x`, the select of `x` is notified, and then the one above. */
  lemma Arrives(depth: Depth, s: Sys, x: Node, q: Node, r: Node)
    requires Resting(depth, s) && Inner(s, x) && q == s.notify[x] && r == s.notify[q]
    ensures Leads(depth, s, Deliver(x), Busy(s, [], [x], [x], []))
    ensures Leads(depth, Busy(s, [], [x], [x], []), Notify(0), Busy(s, [Token(q, x)], [x], [q], []))
    ensures Leads(depth, Busy(s, [Token(q, x)], [x], [q], []), Notify(0),
                  Busy(s, [Token(q, x), Token(r, q)], [x], [r], []))
  {
    hide Leads;
    assert Leads(depth, s, Deliver(x), Busy(s, [], [x], [x], [])) by {
      ItemArrives(depth, s, x);
    }
    TokenGoesUp(depth, s, [], x, x, q);
    TokenGoesUp(depth, s, [Token(q, x)], x, q, r);
    assert [] + [Token(q, x)] == [Token(q, x)];
    assert [Token(q, x)] + [Token(r, q)] == [Token(q, x), Token(r, q)];
  }

  lemma ItemArrives(depth: Depth, s: Sys, x: Node)
    requires Resting(depth, s) && x !in s.selects
    ensures Leads(depth, s, Deliver(x), Busy(s, [], [x], [x], []))
  {
    hide Under, Count, Size;
    assert [] + [x] == [x];
  }

  lemma TokenGoesUp(depth: Depth, s: Sys, tokens: seq<Token>, x: Node, m: Node, q: Node)
    requires Resting(depth, s) && x !in s.selects && m in s.notify && q == s.notify[m]
    requires forall k :: 0 <= k < |tokens| ==>
      tokens[k].member in s.notify && s.notify[tokens[k].member] == tokens[k].at
    ensures Leads(depth, Busy(s, tokens, [x], [m], []), Notify(0), Busy(s, tokens + [Token(q, m)], [x], [q], []))
  {
    hide Under, Count, Size;
    assert RemoveAt([m], 0) + [q] == [q];
  }

  /** One thread reads the inner select, another the one above. */
  lemma Enters(depth: Depth, s: Sys, x: Node, q: Node, r: Node)
    requires Resting(depth, s) && Inner(s, x) && q == s.notify[x] && r == s.notify[q]
    ensures Leads(depth, Busy(s, [Token(q, x), Token(r, q)], [x], [r], []), Enter(q),
                  Busy(s, [Token(q, x), Token(r, q)], [x], [r], [[q]]))
    ensures Leads(depth, Busy(s, [Token(r, q)], [x], [r], [[q, x]]), Enter(r),
                  Busy(s, [Token(r, q)], [x], [r], [[q, x], [r]]))
  {
    hide Under, Count, Size;
    assert [] + [[q]] == [[q]];
  }

  /** The first takes the token in the inner select. */
  lemma TakesNested(depth: Depth, s: Sys, x: Node, q: Node, r: Node)
    requires Resting(depth, s) && Inner(s, x) && q == s.notify[x] && r == s.notify[q]
    ensures Leads(depth, Busy(s, [Token(q, x), Token(r, q)], [x], [r], [[q]]), Pop(0),
                  Busy(s, [Token(r, q)], [x], [r], [[q, x]]))
  {
    hide Under, Count, Size;
    var now := Busy(s, [Token(q, x), Token(r, q)], [x], [r], [[q]]);
    assert now.tokens[0].at == q && HasToken(now.tokens, q);
    assert Apply(depth, now, Pop(0)).consumers[0] == [q, x];
    assert Apply(depth, now, Pop(0)).tokens == [Token(r, q)];
  }

  /** The other takes the token above, and goes to the inner select. */
  lemma TakesTop(depth: Depth, s: Sys, x: Node, q: Node, r: Node)
    requires Resting(depth, s) && Inner(s, x) && q == s.notify[x] && r == s.notify[q]
    ensures Leads(depth, Busy(s, [Token(r, q)], [x], [r], [[q, x], [r]]), Pop(1),
                  Busy(s, [], [x], [r], [[q, x], [r, q]]))
  {
    hide Under, Count, Size;
    var now := Busy(s, [Token(r, q)], [x], [r], [[q, x], [r]]);
    assert now.tokens[0].at == r && HasToken(now.tokens, r);
    assert Apply(depth, now, Pop(1)).consumers[1] == [r, q];
  }

  /** It finds no token there. */
  lemma GivesUp(depth: Depth, s: Sys, x: Node, q: Node, r: Node)
    requires Resting(depth, s) && Inner(s, x) && q == s.notify[x] && r == s.notify[q]
    ensures Leads(depth, Busy(s, [], [x], [r], [[q, x], [r, q]]), Fail(1),
                  Busy(s, [], [x], [r], [[q, x], [r]]))
  {
    hide Under, Count, Size;
    var now := Busy(s, [], [x], [r], [[q, x], [r, q]]);
    assert [r, q][..1] == [r];
    assert Apply(depth, now, Fail(1)).consumers == [[q, x], [r]];
  }

  /** `add` is not called. */
  predicate NoAdds(events: seq<Event>)
  {
    forall k :: 0 <= k < |events| ==> !events[k].Install? && !events[k].Announce?
  }

  lemma NoRun(depth: Depth, s: Sys)
    requires Resting(depth, s)
    ensures CanRun(depth, s, []) && Run(depth, s, []) == s && NoAdds([])
  {
  }

  lemma RacedRun(depth: Depth, s: Sys, x: Node, q: Node, r: Node) returns (events: seq<Event>)
    requires Resting(depth, s) && Inner(s, x) && q == s.notify[x] && r == s.notify[q]
    ensures CanRun(depth, s, events) && NoAdds(events)
    ensures Run(depth, s, events) == Busy(s, [], [x], [r], [[q, x], [r]])
  {
    Arrives(depth, s, x, q, r);
    Enters(depth, s, x, q, r);
    TakesNested(depth, s, x, q, r);
    TakesTop(depth, s, x, q, r);
    GivesUp(depth, s, x, q, r);
    hide Leads, Busy, Resting, Inner, CanRun, Run, NoAdds;
    NoRun(depth, s);
    events := Step(depth, s, [], s, Deliver(x), Busy(s, [], [x], [x], []));
    events := Step(depth, s, events, Busy(s, [], [x], [x], []), Notify(0), Busy(s, [Token(q, x)], [x], [q], []));
    events := Step(depth, s, events, Busy(s, [Token(q, x)], [x], [q], []), Notify(0),
                   Busy(s, [Token(q, x), Token(r, q)], [x], [r], []));
    events := Step(depth, s, events, Busy(s, [Token(q, x), Token(r, q)], [x], [r], []), Enter(q),
                   Busy(s, [Token(q, x), Token(r, q)], [x], [r], [[q]]));
    events := Step(depth, s, events, Busy(s, [Token(q, x), Token(r, q)], [x], [r], [[q]]), Pop(0),
                   Busy(s, [Token(r, q)], [x], [r], [[q, x]]));
    events := Step(depth, s, events, Busy(s, [Token(r, q)], [x], [r], [[q, x]]), Enter(r),
                   Busy(s, [Token(r, q)], [x], [r], [[q, x], [r]]));
    events := Step(depth, s, events, Busy(s, [Token(r, q)], [x], [r], [[q, x], [r]]), Pop(1),
                   Busy(s, [], [x], [r], [[q, x], [r, q]]));
    events := Step(depth, s, events, Busy(s, [], [x], [r], [[q, x], [r, q]]), Fail(1),
                   Busy(s, [], [x], [r], [[q, x], [r]]));
  }

  /** The tokens for `m`, the consumers that hold one, and the notifications on their way under it. */
  ghost function Plain(depth: Depth, s: Sys, m: Node): nat
    requires Forest(depth, s.notify)
  {
    Count(s.tokens, ForF(m)) + Count(s.consumers, HoldsF(m)) + Count(s.carriers, UnderF(depth, s.notify, m))
  }

  /**
   With a thread that reads a nested select, they need not: whatever the graph, after this run the select of `x`
   holds one item, and nothing above it says so. The thread that took the token for `x` will take that item, so
   nothing is lost.
   */
  lemma PlainCountFails(depth: Depth, s: Sys, x: Node) returns (events: seq<Event>)
    requires Resting(depth, s) && Inner(s, x)
    ensures CanRun(depth, s, events) && NoAdds(events)
    ensures var s' := Run(depth, s, events);
            && Forest(depth, s'.notify) && s'.par == s'.notify && s'.notify == s.notify
            && Size(depth, s', s.notify[x]) == 1 && Plain(depth, s', s.notify[x]) == 0
  {
    var q, r := s.notify[x], s.notify[s.notify[x]];
    events := RacedRun(depth, s, x, q, r);
    NothingSaysSo(depth, s, x, q, r);
  }

  lemma NothingSaysSo(depth: Depth, s: Sys, x: Node, q: Node, r: Node)
    requires Resting(depth, s) && Inner(s, x) && q == s.notify[x] && r == s.notify[q]
    ensures var s' := Busy(s, [], [x], [r], [[q, x], [r]]);
            Forest(depth, s'.notify) && Size(depth, s', q) == 1 && Plain(depth, s', q) == 0
  {
    var s' := Busy(s, [], [x], [r], [[q, x], [r]]);
    assert depth(r) < depth(q) < depth(x);
    assert !Holds([q, x], q) && !Holds([r], q);
    CountNone(s'.consumers, HoldsF(q));
    assert Under(depth, s.notify, q, q) && Under(depth, s.notify, x, q);
    if Under(depth, s.notify, r, q) {
      UnderIsDeeper(depth, s.notify, r, q);
    }
    var none: seq<Node> := [];
    CountSnoc(none, x, UnderF(depth, s.notify, q));
    CountSnoc(none, r, UnderF(depth, s.notify, q));
    assert none + [x] == s'.items && none + [r] == s'.carriers;
  }

  // ---------------------------------------------------------------- exactly when

  lemma IdleIsCovered(depth: Depth, s: Sys)
    requires Resting(depth, s)
    ensures Inv(depth, s)
  {
    forall m | m in s.par ensures Covered(depth, s, m) {
      var none: seq<Node> := [];
      assert CoversSize(depth, s, s.par, m);
      assert CountsFor(depth, s, s.par, m);
    }
  }

  lemma {:induction false} SameGraph(depth: Depth, s: Sys, events: seq<Event>)
    requires CanRun(depth, s, events) && NoAdds(events)
    ensures var s' := Run(depth, s, events); s'.selects == s.selects && s'.notify == s.notify && s'.par == s.par
    decreases |events|
  {
    hide Structure, Enabled;
    if events != [] {
      SameGraph(depth, Apply(depth, s, events[0]), events[1..]);
    }
  }

  lemma {:induction false} ParentIsNested(depth: Depth, links: Links, x: Node, q: Node)
    requires Forest(depth, links) && Under(depth, links, x, q) && x != q && q in links
    ensures x in links && links[x] in links
  {
  }

  /** Where no select that belongs to another has a receiver of its own, nothing is ever held under one. */
  lemma NestedHoldNothing(depth: Depth, s: Sys, m: Node)
    requires Structure(depth, s) && m in s.notify && m in s.selects && forall x :: !Inner(s, x)
    ensures Size(depth, s, m) == 0
  {
    hide Under;
    forall x | x in s.items ensures !UnderF(depth, s.notify, m)(x) {
      if Under(depth, s.notify, x, m) {
        ParentIsNested(depth, s.notify, x, m);
        assert !Inner(s, x);
      }
    }
    CountNone(s.items, UnderF(depth, s.notify, m));
  }

  /**
   Exactly when the plain count always reaches the size of every member, whoever reads what: in graphs in which
   no receiver belongs to a select that belongs to another one.
   */
  lemma PlainCountSufficesIff(depth: Depth, s: Sys)
    requires Resting(depth, s)
    ensures (forall events, m :: CanRun(depth, s, events) && NoAdds(events) && m in s.notify ==>
               CountReaches(depth, Run(depth, s, events), m))
            <==> forall x :: !Inner(s, x)
  {
    hide CanRun, Run, Resting, Inv, NoAdds, CountReaches;
    if forall x :: !Inner(s, x) {
      forall events, m | CanRun(depth, s, events) && NoAdds(events) && m in s.notify
        ensures CountReaches(depth, Run(depth, s, events), m)
      {
        FlatReaches(depth, s, events, m);
      }
    } else {
      var x :| Inner(s, x);
      var events := PlainCountFails(depth, s, x);
      FallsShort(depth, Run(depth, s, events), s.notify[x]);
    }
  }

  ghost predicate CountReaches(depth: Depth, s: Sys, m: Node)
  {
    Forest(depth, s.notify) && Plain(depth, s, m) >= Size(depth, s, m)
  }

  lemma FallsShort(depth: Depth, s: Sys, m: Node)
    requires Forest(depth, s.notify) && Plain(depth, s, m) < Size(depth, s, m)
    ensures !CountReaches(depth, s, m)
  {
  }

  lemma FlatReaches(depth: Depth, s: Sys, events: seq<Event>, m: Node)
    requires Resting(depth, s) && CanRun(depth, s, events) && NoAdds(events) && m in s.notify
    requires forall x :: !Inner(s, x)
    ensures CountReaches(depth, Run(depth, s, events), m)
  {
    var s' := Run(depth, s, events);
    IdleIsCovered(depth, s);
    RunKeeps(depth, s, events);
    SameGraph(depth, s, events);
    hide CanRun, Run, Count, Sized, CoversTokens, Under;
    if m in s'.selects {
      assert forall x :: Inner(s', x) <==> Inner(s, x);
      NestedHoldNothing(depth, s', m);
    } else {
      assert Covered(depth, s', m);
      PlainFromSized(depth, s', m);
    }
  }
}
