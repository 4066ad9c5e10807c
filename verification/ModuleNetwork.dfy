/**
 Module requests in a tree of contexts of any depth: none is lost, none is repeated, and each
 callback runs exactly once.
 */
module ModuleNetwork {
  import opened Seqs
  import opened Routes
  import opened Modules

  /**
   The importer of one context. `asked`, `issued` and `ran` record the past: the names it sent
   GET_MODULE for, the module each local callback waits for, and the local callbacks invoked.
   */
  datatype Ctx = Ctx(
    cache: map<Name, Module>,
    callbacks: map<Name, seq<Callback>>,
    asked: seq<Name>,
    issued: map<nat, Name>,
    ran: seq<nat>)

  /**
   A link to a parent: the GET_MODULEs the parent has handled and those queued, the parent's record, how many
   LOAD_MODULEs have arrived, and in `refused` the modules for which a dead message arrived, as they were too large.
   */
  datatype Link = Link(taken: seq<Name>, gets: seq<Name>, out: Outgoing, arrived: nat, refused: set<Name>)

  datatype Sys = Sys(ctxs: map<Id, Ctx>, links: map<Id, Link>)

  datatype Event =
    | Attach(d: Id)
    | Request(n: Id, name: Name, id: nat)  // an import in `n`
    | HandleGet(d: Id)                     // the parent of `d` handles the oldest request from it
    | HandleLoad(d: Id)                    // `d` handles the oldest module sent to it
    | Push(d: Id, name: Name)              // the parent of `d` sends a module unasked
    | Cut(d: Id)                           // the link is lost

  const NEW_CTX := Ctx(map[CORE := Module(CORE, true, [], true)], map[], [], map[], [])

  const NEW_LINK := Link([], [], Outgoing({MITOGEN, CORE}, []), 0, {})

  predicate Enabled(tr: Tree, s: Sys, e: Event)
  {
    match e
    case Attach(d) => d != MASTER && d !in s.ctxs && tr.up(d) in s.ctxs
    case Request(n, _, id) => n != MASTER && n in s.ctxs && id !in s.ctxs[n].issued
    case HandleGet(d) => d in s.links && s.links[d].gets != [] && tr.up(d) in s.ctxs
    case HandleLoad(d) => d in s.links && d in s.ctxs && s.links[d].arrived < |s.links[d].out.loads|
    case Push(d, name) =>
      d in s.links && tr.up(d) in s.ctxs && (tr.up(d) != MASTER ==> name in s.ctxs[tr.up(d)].cache)
    case Cut(d) => d in s.links
  }

  /** `_request_module` in context `n`, when the module is not cached. */
  function Wait(s: Sys, n: Id, name: Name, cb: Callback): Sys
    requires n in s.ctxs
  {
    var c := s.ctxs[n];
    var asks := name !in c.callbacks;
    var c' := c.(callbacks := Waiting(c.callbacks, name, cb), asked := if asks then c.asked + [name] else c.asked);
    var s' := s.(ctxs := s.ctxs[n := c']);
    if asks && n in s.links then
      s'.(links := s.links[n := s.links[n].(gets := s.links[n].gets + [name])])
    else s'
  }

  /** The parent takes the oldest request. */
  function TakeGet(l: Link): Link
    requires l.gets != []
  {
    l.(taken := l.taken + [l.gets[0]], gets := l.gets[1..])
  }

  /** A module that is in the cache of the parent is sent to `d`, with the related ones cached there. */
  function Forward(s: Sys, n: Id, d: Id, name: Name): Sys
    requires n in s.ctxs && name in s.ctxs[n].cache
  {
    if d !in s.links then s
    else
      var cache := s.ctxs[n].cache;
      s.(links := s.links[d := s.links[d].(
           out := SendCached(cache, s.links[d].out, cache[name].related + [name]))])
  }

  function RunOne(s: Sys, n: Id, name: Name, cb: Callback): (s': Sys)
    requires n in s.ctxs && name in s.ctxs[n].cache
    ensures n in s'.ctxs && s'.ctxs[n].cache == s.ctxs[n].cache
  {
    match cb
    case Local(id) => s.(ctxs := s.ctxs[n := s.ctxs[n].(ran := s.ctxs[n].ran + [id])])
    case OnBehalf(d) => Forward(s, n, d, name)
  }

  /** The callbacks of `n` for a module that has just been cached, in order. */
  function RunAll(s: Sys, n: Id, name: Name, cbs: seq<Callback>): Sys
    requires n in s.ctxs && name in s.ctxs[n].cache
    decreases |cbs|
  {
    if cbs == [] then s else RunAll(RunOne(s, n, name, cbs[0]), n, name, cbs[1..])
  }

  function Arrived(s: Sys, d: Id): Module
    requires d in s.links && s.links[d].arrived < |s.links[d].out.loads|
  {
    s.links[d].out.loads[s.links[d].arrived]
  }

  /** The oldest module for `d` is in its cache; the callbacks that waited for it have still to run. */
  function Store(s: Sys, d: Id): Sys
    requires d in s.links && d in s.ctxs && s.links[d].arrived < |s.links[d].out.loads|
  {
    var (c, l, m) := (s.ctxs[d], s.links[d], Arrived(s, d));
    Sys(s.ctxs[d := c.(cache := c.cache[m.name := m], callbacks := c.callbacks - {m.name})],
        s.links[d := l.(arrived := l.arrived + 1)])
  }

  /** A dead message in the place of a module is ignored. */
  function Refuse(s: Sys, d: Id): Sys
    requires d in s.links && s.links[d].arrived < |s.links[d].out.loads|
  {
    var l := s.links[d];
    s.(links := s.links[d := l.(arrived := l.arrived + 1, refused := l.refused + {Arrived(s, d).name})])
  }

  function Released(s: Sys, d: Id): seq<Callback>
    requires d in s.links && d in s.ctxs && s.links[d].arrived < |s.links[d].out.loads|
  {
    var name := Arrived(s, d).name;
    if name in s.ctxs[d].callbacks then s.ctxs[d].callbacks[name] else []
  }

  function Apply(tr: Tree, build: Builder, s: Sys, e: Event): Sys
    requires Enabled(tr, s, e)
  {
    match e
    case Attach(d) => Sys(s.ctxs[d := NEW_CTX], s.links[d := NEW_LINK])
    case Request(n, name, id) =>
      var c := s.ctxs[n].(issued := s.ctxs[n].issued[id := name]);
      if name in c.cache then s.(ctxs := s.ctxs[n := c.(ran := c.ran + [id])])
      else Wait(s.(ctxs := s.ctxs[n := c]), n, name, Local(id))
    case HandleGet(d) =>
      var (c, l) := (tr.up(d), s.links[d]);
      var name := l.gets[0];
      var s' := s.(links := s.links[d := TakeGet(l)]);
      if c == MASTER then s.(links := s.links[d := TakeGet(l).(out := Respond(build, l.out, name))])
      else if name in s.ctxs[c].cache then Forward(s', c, d, name)
      else Wait(s', c, name, OnBehalf(d))
    case HandleLoad(d) =>
      if Arrived(s, d).fits then RunAll(Store(s, d), d, Arrived(s, d).name, Released(s, d))
      else Refuse(s, d)
    case Push(d, name) =>
      if tr.up(d) == MASTER then
        s.(links := s.links[d := s.links[d].(out := Respond(build, s.links[d].out, name))])
      else Forward(s, tr.up(d), d, name)
    case Cut(d) => s.(links := s.links - {d})
  }

  // ---------------------------------------------------------------- invariants

  predicate Waits(c: Ctx, name: Name, cb: Callback)
  {
    name in c.callbacks && cb in c.callbacks[name]
  }

  /** Sent to `d` and not arrived. */
  predicate Coming(l: Link, name: Name)
  {
    exists i :: l.arrived <= i < |l.out.loads| && l.out.loads[i].name == name
  }

  /** A context asks for nothing twice. */
  ghost predicate AsksOnce(c: Ctx)
  {
    && Named(c.cache)
    && Distinct(c.asked)
    && (forall n :: n in c.asked ==> n in c.cache || n in c.callbacks)
    && (forall n :: n in c.callbacks ==> n !in c.cache && c.callbacks[n] != [])
  }

  /** Each local callback waits until its module comes, in one place, and then has run once. */
  ghost predicate RunsOnce(c: Ctx)
  {
    && Distinct(c.ran)
    && (forall id :: id in c.ran ==> id in c.issued && c.issued[id] in c.cache)
    && (forall id :: id in c.issued ==> id in c.ran || Waits(c, c.issued[id], Local(id)))
    && (forall n :: n in c.callbacks ==> QueueOk(c, n, c.callbacks[n]))
  }

  ghost predicate QueueOk(c: Ctx, n: Name, cbs: seq<Callback>)
  {
    && (forall id :: Local(id) in cbs ==> id in c.issued && c.issued[id] == n && id !in c.ran)
    && (forall i, j :: 0 <= i < j < |cbs| && cbs[i].Local? ==> cbs[i] != cbs[j])
  }

  ghost predicate CtxOk(c: Ctx)
  {
    AsksOnce(c) && RunsOnce(c)
  }

  /** What the parent's record says was sent has arrived or is coming, or was too large. */
  ghost predicate LinkOk(l: Link, c: Ctx)
  {
    && l.arrived <= |l.out.loads|
    && (forall n :: n in l.out.sent && n != MITOGEN ==> n in c.cache || Coming(l, n) || n in l.refused)
  }

  /** The parent of `d` waits for `name` on its behalf. */
  predicate Represented(tr: Tree, s: Sys, d: Id, name: Name)
  {
    tr.up(d) != MASTER && tr.up(d) in s.ctxs && Waits(s.ctxs[tr.up(d)], name, OnBehalf(d))
  }

  /** A request of `d` is on its way up, or its parent's concern, or being answered, unless the answer was too large. */
  ghost predicate NotLost(tr: Tree, s: Sys, d: Id, name: Name)
    requires d in s.links
  {
    || name in s.links[d].gets || Represented(tr, s, d, name) || Coming(s.links[d], name)
    || name in s.links[d].refused
  }

  ghost predicate Domains(tr: Tree, s: Sys)
  {
    && MASTER in s.ctxs && s.ctxs[MASTER].callbacks == map[]
    && (forall d :: d in s.links ==> d != MASTER && d in s.ctxs && tr.up(d) in s.ctxs)
  }

  ghost predicate Pending(tr: Tree, s: Sys)
    requires Domains(tr, s)
  {
    forall d, name :: d in s.links && name in s.ctxs[d].callbacks && name != MITOGEN ==> NotLost(tr, s, d, name)
  }

  ghost predicate Inv(tr: Tree, s: Sys)
  {
    && Domains(tr, s)
    && (forall n :: n in s.ctxs ==> CtxOk(s.ctxs[n]))
    && (forall d :: d in s.links ==> LinkOk(s.links[d], s.ctxs[d]))
    && Pending(tr, s)
  }

  // ---------------------------------------------------------------- one context, one link

  /** `c` with a callback more. */
  function Waited(c: Ctx, name: Name, cb: Callback): Ctx
  {
    var c1 := if cb.Local? then c.(issued := c.issued[cb.id := name]) else c;
    c1.(callbacks := Waiting(c.callbacks, name, cb),
        asked := if name !in c.callbacks then c.asked + [name] else c.asked)
  }

  lemma WaitKeepsWaiting(c: Ctx, name: Name, cb: Callback)
    requires RunsOnce(c) && (cb.Local? ==> cb.id !in c.issued)
    ensures var c' := Waited(c, name, cb);
            forall id :: id in c'.issued ==> id in c'.ran || Waits(c', c'.issued[id], Local(id))
  {
    hide QueueOk, Distinct;
    var c' := Waited(c, name, cb);
    forall id | id in c'.issued ensures id in c'.ran || Waits(c', c'.issued[id], Local(id)) {
      if id in c.issued {
        if id !in c.ran {
          WaitsLonger(c, c', name, cb, c.issued[id], Local(id));
        }
      } else {
        WaitsNow(c, c', name, cb);
      }
    }
  }

  lemma WaitKeepsQueue(c: Ctx, name: Name, cb: Callback, n: Name)
    requires RunsOnce(c) && (cb.Local? ==> cb.id !in c.issued)
    requires n in Waited(c, name, cb).callbacks
    ensures var c' := Waited(c, name, cb); QueueOk(c', n, c'.callbacks[n])
  {
    hide Waits, Distinct;
    var c' := Waited(c, name, cb);
    var cbs := if n in c.callbacks then c.callbacks[n] else [];
    assert QueueOk(c, n, cbs);
    assert c'.callbacks[n] == if n == name then cbs + [cb] else cbs;
  }

  lemma WaitKeepsRuns(c: Ctx, name: Name, cb: Callback)
    requires RunsOnce(c) && name !in c.cache
    requires cb.Local? ==> cb.id !in c.issued
    ensures RunsOnce(Waited(c, name, cb))
  {
    hide Waits, QueueOk;
    var c' := Waited(c, name, cb);
    WaitKeepsWaiting(c, name, cb);
    forall n | n in c'.callbacks ensures QueueOk(c', n, c'.callbacks[n]) {
      WaitKeepsQueue(c, name, cb, n);
    }
  }

  lemma WaitKeepsCtx(c: Ctx, name: Name, cb: Callback)
    requires CtxOk(c) && name !in c.cache
    requires cb.Local? ==> cb.id !in c.issued
    ensures CtxOk(Waited(c, name, cb))
  {
    WaitKeepsRuns(c, name, cb);
    hide RunsOnce;
  }

  lemma WaitsLonger(c: Ctx, c': Ctx, name: Name, cb: Callback, n: Name, x: Callback)
    requires c'.callbacks == Waiting(c.callbacks, name, cb) && Waits(c, n, x)
    ensures Waits(c', n, x)
  {
    var i :| 0 <= i < |c.callbacks[n]| && c.callbacks[n][i] == x;
    assert c'.callbacks[n][i] == x;
  }

  lemma WaitsNow(c: Ctx, c': Ctx, name: Name, cb: Callback)
    requires c'.callbacks == Waiting(c.callbacks, name, cb)
    ensures Waits(c', name, cb)
  {
    assert c'.callbacks[name][|c'.callbacks[name]| - 1] == cb;
  }

  lemma ExtendedLink(l: Link, o': Outgoing, c: Ctx)
    requires LinkOk(l, c) && Extends(l.out, o')
    ensures LinkOk(l.(out := o'), c)
    ensures forall n :: Coming(l, n) ==> Coming(l.(out := o'), n)
    ensures forall n :: Added(l.out, o', n) ==> Coming(l.(out := o'), n)
  {
    var l' := l.(out := o');
    forall n | Coming(l, n) ensures Coming(l', n) {
      var i :| l.arrived <= i < |l.out.loads| && l.out.loads[i].name == n;
      assert l'.out.loads[i].name == n;
    }
    forall n | Added(l.out, o', n) ensures Coming(l', n) {
      var i :| |l.out.loads| <= i < |o'.loads| && o'.loads[i].name == n;
      assert l'.out.loads[i].name == n;
    }
  }

  lemma ArrivedLink(l: Link, c: Ctx, c': Ctx)
    requires LinkOk(l, c) && l.arrived < |l.out.loads|
    requires c'.cache == c.cache[l.out.loads[l.arrived].name := l.out.loads[l.arrived]]
    ensures LinkOk(l.(arrived := l.arrived + 1), c')
    ensures forall n :: Coming(l, n) && n != l.out.loads[l.arrived].name ==> Coming(l.(arrived := l.arrived + 1), n)
  {
    var l' := l.(arrived := l.arrived + 1);
    forall n | Coming(l, n) && n != l.out.loads[l.arrived].name ensures Coming(l', n) {
      var i :| l.arrived <= i < |l.out.loads| && l.out.loads[i].name == n;
      assert l'.out.loads[i].name == n;
    }
  }

  function Locals(cbs: seq<Callback>): seq<nat>
  {
    if cbs == [] then []
    else (if cbs[0].Local? then [cbs[0].id] else []) + Locals(cbs[1..])
  }

  lemma {:induction false} LocalsAre(cbs: seq<Callback>)
    ensures forall id :: id in Locals(cbs) <==> Local(id) in cbs
    ensures (forall i, j :: 0 <= i < j < |cbs| && cbs[i].Local? ==> cbs[i] != cbs[j]) ==> Distinct(Locals(cbs))
  {
    if cbs != [] {
      LocalsAre(cbs[1..]);
      if forall i, j :: 0 <= i < j < |cbs| && cbs[i].Local? ==> cbs[i] != cbs[j] {
        assert forall i, j :: 0 <= i < j < |cbs[1..]| && cbs[1..][i].Local? ==> cbs[1..][i] != cbs[1..][j];
        assert cbs[0].Local? ==> forall j :: 0 < j < |cbs| ==> cbs[j] != cbs[0];
        assert cbs[0].Local? ==> cbs[0].id !in Locals(cbs[1..]);
      }
    }
  }

  /** The context whose module `m` arrives, once all callbacks that waited for it have run. */
  lemma LoadKeepsCtx(c: Ctx, m: Module)
    requires CtxOk(c)
    ensures var cbs := if m.name in c.callbacks then c.callbacks[m.name] else [];
            CtxOk(c.(cache := c.cache[m.name := m], callbacks := c.callbacks - {m.name}, ran := c.ran + Locals(cbs)))
  {
    var cbs := if m.name in c.callbacks then c.callbacks[m.name] else [];
    var c' := c.(cache := c.cache[m.name := m], callbacks := c.callbacks - {m.name}, ran := c.ran + Locals(cbs));
    LocalsAre(cbs);
    assert QueueOk(c, m.name, cbs);
    assert AsksOnce(c');
    DistinctConcat(c.ran, Locals(cbs));
    forall id | id in c'.ran ensures id in c'.issued && c'.issued[id] in c'.cache {
      assert id in c.ran || id in Locals(cbs);
    }
    forall id | id in c'.issued ensures id in c'.ran || Waits(c', c'.issued[id], Local(id)) {
      assert id in c.ran || Waits(c, c.issued[id], Local(id));
    }
    forall n | n in c'.callbacks ensures QueueOk(c', n, c'.callbacks[n]) {
      assert QueueOk(c, n, c.callbacks[n]);
      forall id | Local(id) in c.callbacks[n] ensures id !in c'.ran {
        assert c.issued[id] == n != m.name;
      }
    }
  }

  /** What running callbacks changes: the local ones are recorded, children are sent the module. */
  ghost predicate Ran(s: Sys, s': Sys, n: Id, name: Name, cbs: seq<Callback>)
    requires n in s.ctxs
  {
    && s'.ctxs == s.ctxs[n := s.ctxs[n].(ran := s.ctxs[n].ran + Locals(cbs))]
    && s'.links.Keys == s.links.Keys
    && (forall d :: d in s.links ==>
          && s'.links[d] == s.links[d].(out := s'.links[d].out)
          && Extends(s.links[d].out, s'.links[d].out)
          && (OnBehalf(d) in cbs ==> name in s'.links[d].out.sent))
  }

  lemma RunOneDoes(s: Sys, n: Id, name: Name, cb: Callback)
    requires n in s.ctxs && name in s.ctxs[n].cache && Named(s.ctxs[n].cache)
    ensures Ran(s, RunOne(s, n, name, cb), n, name, [cb])
  {
    LocalsOne(cb);
    assert s.ctxs[n].ran + [] == s.ctxs[n].ran && s.ctxs[n := s.ctxs[n]] == s.ctxs;
    if cb.OnBehalf? && cb.child in s.links {
      ForwardDoes(s, n, cb.child, name);
    }
    hide Forward, Locals;
  }

  lemma LocalsOne(cb: Callback)
    ensures Locals([cb]) == if cb.Local? then [cb.id] else []
  {
    assert [cb][1..] == [];
  }

  lemma RanBoth(s: Sys, s1: Sys, s': Sys, n: Id, name: Name, cb: Callback, cbs: seq<Callback>)
    requires n in s.ctxs && Ran(s, s1, n, name, [cb]) && Ran(s1, s', n, name, cbs)
    ensures Ran(s, s', n, name, [cb] + cbs)
  {
    LocalsOne(cb);
    assert ([cb] + cbs)[1..] == cbs;
    assert s1.ctxs[n].ran + Locals(cbs) == s.ctxs[n].ran + Locals([cb] + cbs);
    hide Extends, Locals;
    forall d | d in s.links
      ensures Extends(s.links[d].out, s'.links[d].out) && s.links[d].out.sent <= s'.links[d].out.sent
    {
      ExtendsTransitive(s.links[d].out, s1.links[d].out, s'.links[d].out);
      ExtendsSent(s.links[d].out, s'.links[d].out);
      ExtendsSent(s1.links[d].out, s'.links[d].out);
    }
  }

  lemma ExtendsSent(o: Outgoing, o': Outgoing)
    requires Extends(o, o')
    ensures o.sent <= o'.sent
  {
  }

  lemma {:induction false} RunAllDoes(s: Sys, n: Id, name: Name, cbs: seq<Callback>)
    requires n in s.ctxs && name in s.ctxs[n].cache && Named(s.ctxs[n].cache)
    ensures Ran(s, RunAll(s, n, name, cbs), n, name, cbs)
    decreases |cbs|
  {
    if cbs == [] {
      assert s.ctxs[n].ran + [] == s.ctxs[n].ran;
      assert s.ctxs[n := s.ctxs[n]] == s.ctxs;
    } else {
      hide Ran, RunOne;
      var s1 := RunOne(s, n, name, cbs[0]);
      RunOneDoes(s, n, name, cbs[0]);
      RunAllDoes(s1, n, name, cbs[1..]);
      RanBoth(s, s1, RunAll(s, n, name, cbs), n, name, cbs[0], cbs[1..]);
      assert [cbs[0]] + cbs[1..] == cbs;
    }
  }

  lemma ForwardDoes(s: Sys, n: Id, d: Id, name: Name)
    requires n in s.ctxs && name in s.ctxs[n].cache && Named(s.ctxs[n].cache) && d in s.links
    ensures var s' := Forward(s, n, d, name);
            && s'.ctxs == s.ctxs
            && s'.links == s.links[d := s.links[d].(out := s'.links[d].out)]
            && Extends(s.links[d].out, s'.links[d].out)
            && name in s'.links[d].out.sent
  {
    var names := s.ctxs[n].cache[name].related + [name];
    assert names[|names| - 1] == name;
    SendCachedExtends(s.ctxs[n].cache, s.links[d].out, names);
  }

  // ---------------------------------------------------------------- steps

  /** Pending, but for a request of `gap` for `name` whose message has just been taken off its link. */
  ghost predicate PendingBut(tr: Tree, s: Sys, gap: Option<Id>, name: Name)
    requires Domains(tr, s)
  {
    forall d, x :: d in s.links && x in s.ctxs[d].callbacks && x != MITOGEN && (Some(d) != gap || x != name) ==>
      NotLost(tr, s, d, x)
  }

  lemma WaitKeepsPending(tr: Tree, s: Sys, n: Id, name: Name, cb: Callback, gap: Option<Id>)
    requires IsTree(tr) && Domains(tr, s) && n in s.ctxs && n != MASTER && PendingBut(tr, s, gap, name)
    requires gap.Some? ==> cb == OnBehalf(gap.value) && tr.up(gap.value) == n
    ensures Domains(tr, Wait(s, n, name, cb)) && Pending(tr, Wait(s, n, name, cb))
  {
    var s' := Wait(s, n, name, cb);
    forall d, x | d in s'.links && x in s'.ctxs[d].callbacks && x != MITOGEN ensures NotLost(tr, s', d, x) {
      if tr.up(d) == n {
        if gap == Some(d) && x == name {
          WaitsNow(s.ctxs[n], s'.ctxs[n], name, cb);
        } else if Represented(tr, s, d, x) {
          WaitsLonger(s.ctxs[n], s'.ctxs[n], name, cb, x, OnBehalf(d));
        }
        assert d != n;
      }
      if d == n && x == name && name !in s.ctxs[n].callbacks {
        assert s'.links[d].gets[|s'.links[d].gets| - 1] == name;
      } else if d == n && x in s.links[d].gets {
        assert x in s'.links[d].gets;
      }
    }
  }

  lemma WaitKeeps(tr: Tree, s: Sys, n: Id, name: Name, cb: Callback, gap: Option<Id>)
    requires IsTree(tr) && Domains(tr, s) && n in s.ctxs && n != MASTER && PendingBut(tr, s, gap, name)
    requires gap.Some? ==> cb == OnBehalf(gap.value) && tr.up(gap.value) == n
    requires forall x :: x in s.ctxs && x != n ==> CtxOk(s.ctxs[x])
    requires CtxOk(Wait(s, n, name, cb).ctxs[n])
    requires forall d :: d in s.links ==> LinkOk(s.links[d], s.ctxs[d])
    ensures Inv(tr, Wait(s, n, name, cb))
  {
    hide CtxOk, NotLost, Represented;
    WaitKeepsPending(tr, s, n, name, cb, gap);
    var s' := Wait(s, n, name, cb);
    forall d | d in s'.links ensures LinkOk(s'.links[d], s'.ctxs[d]) {
      LinkIgnoresGets(s.links[d], s'.links[d], s.ctxs[d], s'.ctxs[d]);
    }
  }

  lemma LinkIgnoresGets(l: Link, l': Link, c: Ctx, c': Ctx)
    requires LinkOk(l, c) && l' == l.(taken := l'.taken, gets := l'.gets) && c'.cache == c.cache
    ensures LinkOk(l', c')
    ensures forall n :: Coming(l, n) <==> Coming(l', n)
  {
  }

  lemma RequestKeeps(tr: Tree, build: Builder, s: Sys, n: Id, name: Name, id: nat)
    requires IsTree(tr) && Inv(tr, s) && Enabled(tr, s, Request(n, name, id))
    ensures Inv(tr, Apply(tr, build, s, Request(n, name, id)))
  {
    var c := s.ctxs[n].(issued := s.ctxs[n].issued[id := name]);
    var s1 := s.(ctxs := s.ctxs[n := c]);
    if name in c.cache {
      RunNowKeepsCtx(s.ctxs[n], name, id);
      OnlyRan(tr, s, Apply(tr, build, s, Request(n, name, id)), n);
    } else {
      hide CtxOk, LinkOk, NotLost;
      WaitKeepsCtx(s.ctxs[n], name, Local(id));
      SameWaiting(tr, s, s1, n);
      WaitKeeps(tr, s1, n, name, Local(id), None);
    }
  }

  lemma RunNowKeepsCtx(c: Ctx, name: Name, id: nat)
    requires CtxOk(c) && name in c.cache && id !in c.issued
    ensures CtxOk(c.(issued := c.issued[id := name], ran := c.ran + [id]))
  {
    var c' := c.(issued := c.issued[id := name], ran := c.ran + [id]);
    forall x | x in c'.issued ensures x in c'.ran || Waits(c', c'.issued[x], Local(x)) {
      assert x != id ==> x in c.ran || Waits(c, c.issued[x], Local(x));
    }
    forall n | n in c'.callbacks ensures QueueOk(c', n, c'.callbacks[n]) {
      assert QueueOk(c, n, c.callbacks[n]);
    }
  }

  /** Only bookkeeping of `n` changed: what waits and what was sent is the same. */
  lemma SameWaiting(tr: Tree, s: Sys, s': Sys, n: Id)
    requires Inv(tr, s) && n in s.ctxs && n in s'.ctxs && s'.links == s.links
    requires s'.ctxs == s.ctxs[n := s'.ctxs[n]]
    requires s'.ctxs[n].callbacks == s.ctxs[n].callbacks && s'.ctxs[n].cache == s.ctxs[n].cache
    ensures Domains(tr, s') && PendingBut(tr, s', None, "")
    ensures forall x :: PendingBut(tr, s', None, x)
    ensures Pending(tr, s')
    ensures forall d :: d in s'.links ==> LinkOk(s'.links[d], s'.ctxs[d])
  {
    hide CtxOk;
    forall d, x | d in s'.links && x in s'.ctxs[d].callbacks && x != MITOGEN ensures NotLost(tr, s', d, x) {
      assert NotLost(tr, s, d, x);
      assert Represented(tr, s, d, x) ==> Represented(tr, s', d, x);
    }
    forall d | d in s'.links ensures LinkOk(s'.links[d], s'.ctxs[d]) {
      LinkIgnoresGets(s.links[d], s'.links[d], s.ctxs[d], s'.ctxs[d]);
    }
  }

  lemma OnlyRan(tr: Tree, s: Sys, s': Sys, n: Id)
    requires Inv(tr, s) && n in s.ctxs && n in s'.ctxs && s'.links == s.links
    requires s'.ctxs == s.ctxs[n := s'.ctxs[n]] && CtxOk(s'.ctxs[n])
    requires s'.ctxs[n].callbacks == s.ctxs[n].callbacks && s'.ctxs[n].cache == s.ctxs[n].cache
    ensures Inv(tr, s')
  {
    hide CtxOk, LinkOk, NotLost;
    SameWaiting(tr, s, s', n);
  }

  /** The parent's record for `d` grew; a request of `d` that was the gap is answered. */
  lemma SentKeeps(tr: Tree, s: Sys, s': Sys, d: Id, gap: Option<Id>, name: Name)
    requires Domains(tr, s) && PendingBut(tr, s, gap, name) && d in s.links
    requires forall n :: n in s.ctxs ==> CtxOk(s.ctxs[n])
    requires forall e :: e in s.links ==> LinkOk(s.links[e], s.ctxs[e])
    requires d in s'.links && s'.ctxs == s.ctxs && s'.links == s.links[d := s.links[d].(out := s'.links[d].out)]
    requires Extends(s.links[d].out, s'.links[d].out)
    requires gap.Some? ==>
      gap == Some(d) && (name in s'.links[d].out.sent || Added(s.links[d].out, s'.links[d].out, name))
    ensures Inv(tr, s')
  {
    hide LinkOk, Extends, Added, CtxOk, NotLost, PendingBut;
    ExtendedLink(s.links[d], s'.links[d].out, s.ctxs[d]);
    forall e, x | e in s'.links && x in s'.ctxs[e].callbacks && x != MITOGEN ensures NotLost(tr, s', e, x) {
      SentPending(tr, s, s', d, gap, name, e, x);
    }
  }

  lemma SentPending(tr: Tree, s: Sys, s': Sys, d: Id, gap: Option<Id>, name: Name, e: Id, x: Name)
    requires Domains(tr, s) && PendingBut(tr, s, gap, name) && d in s.links
    requires d in s'.links && s'.ctxs == s.ctxs && s'.links == s.links[d := s.links[d].(out := s'.links[d].out)]
    requires LinkOk(s.links[d], s.ctxs[d]) && Extends(s.links[d].out, s'.links[d].out) && CtxOk(s.ctxs[d])
    requires gap.Some? ==>
      gap == Some(d) && (name in s'.links[d].out.sent || Added(s.links[d].out, s'.links[d].out, name))
    requires e in s'.links && x in s'.ctxs[e].callbacks && x != MITOGEN
    ensures NotLost(tr, s', e, x)
  {
    ExtendedLink(s.links[d], s'.links[d].out, s.ctxs[d]);
    hide LinkOk, Extends, Added, CtxOk, Waits, Coming;
    if gap == Some(e) && x == name {
      AnsweredIsComing(s'.links[d], s'.ctxs[d], name);
    } else {
      assert NotLost(tr, s, e, x);
      assert Represented(tr, s, e, x) ==> Represented(tr, s', e, x);
    }
  }

  /** A context that waits for a module the parent's record has as sent is about to get it, unless it was too large. */
  lemma AnsweredIsComing(l: Link, c: Ctx, name: Name)
    requires LinkOk(l, c) && CtxOk(c) && name in c.callbacks && name != MITOGEN
    requires name in l.out.sent || Coming(l, name)
    ensures Coming(l, name) || name in l.refused
  {
  }

  /** Taking a request off the link of `d` leaves that request as the only gap. */
  lemma PopGetLeavesGap(tr: Tree, s: Sys, d: Id)
    requires Inv(tr, s) && d in s.links && s.links[d].gets != []
    ensures var s1 := s.(links := s.links[d := TakeGet(s.links[d])]);
            && Domains(tr, s1) && PendingBut(tr, s1, Some(d), s.links[d].gets[0])
            && (forall e :: e in s1.links ==> LinkOk(s1.links[e], s1.ctxs[e]))
  {
    hide CtxOk;
    var l := s.links[d];
    var s1 := s.(links := s.links[d := TakeGet(l)]);
    LinkIgnoresGets(l, s1.links[d], s.ctxs[d], s.ctxs[d]);
    hide LinkOk;
    forall e, x | e in s1.links && x in s1.ctxs[e].callbacks && x != MITOGEN && (e != d || x != l.gets[0])
      ensures NotLost(tr, s1, e, x)
    {
      assert NotLost(tr, s, e, x);
      assert Represented(tr, s, e, x) ==> Represented(tr, s1, e, x);
      if e == d && x in l.gets {
        assert l.gets == [l.gets[0]] + l.gets[1..];
      }
    }
  }

  lemma HandleGetKeeps(tr: Tree, build: Builder, s: Sys, d: Id)
    requires IsTree(tr) && BuilderNames(build) && Inv(tr, s) && Enabled(tr, s, HandleGet(d))
    ensures Inv(tr, Apply(tr, build, s, HandleGet(d)))
  {
    hide CtxOk, LinkOk, NotLost, PendingBut, Respond;
    var (c, l) := (tr.up(d), s.links[d]);
    var name := l.gets[0];
    var s1 := s.(links := s.links[d := TakeGet(l)]);
    var s' := Apply(tr, build, s, HandleGet(d));
    PopGetLeavesGap(tr, s, d);
    if c == MASTER {
      MasterAnswers(build, l.out, name);
      SentKeeps(tr, s1, s', d, Some(d), name);
    } else if name in s.ctxs[c].cache {
      CtxNamed(s.ctxs[c]);
      ForwardDoes(s1, c, d, name);
      SentKeeps(tr, s1, s', d, Some(d), name);
    } else {
      WaitKeepsCtx(s.ctxs[c], name, OnBehalf(d));
      WaitKeeps(tr, s1, c, name, OnBehalf(d), Some(d));
    }
  }

  lemma CtxNamed(c: Ctx)
    requires CtxOk(c)
    ensures Named(c.cache)
  {
  }

  lemma PushKeeps(tr: Tree, build: Builder, s: Sys, d: Id, name: Name)
    requires IsTree(tr) && BuilderNames(build) && Inv(tr, s) && Enabled(tr, s, Push(d, name))
    ensures Inv(tr, Apply(tr, build, s, Push(d, name)))
  {
    hide CtxOk, LinkOk, NotLost, Respond;
    var s' := Apply(tr, build, s, Push(d, name));
    if tr.up(d) == MASTER {
      MasterAnswers(build, s.links[d].out, name);
    } else {
      CtxNamed(s.ctxs[tr.up(d)]);
      ForwardDoes(s, tr.up(d), d, name);
    }
    SentKeeps(tr, s, s', d, None, name);
  }

  lemma RanIsLoaded(s: Sys, s': Sys, d: Id)
    requires d in s.links && d in s.ctxs && s.links[d].arrived < |s.links[d].out.loads| && CtxOk(s.ctxs[d])
    requires Ran(Store(s, d), s', d, Arrived(s, d).name, Released(s, d))
    ensures Loaded(s, Store(s, d), s', d)
  {
    hide CtxOk, Extends, Locals;
  }

  lemma RanIsOk(s: Sys, s': Sys, d: Id)
    requires d in s.links && d in s.ctxs && s.links[d].arrived < |s.links[d].out.loads| && CtxOk(s.ctxs[d])
    requires Ran(Store(s, d), s', d, Arrived(s, d).name, Released(s, d))
    ensures CtxOk(s'.ctxs[d])
  {
    hide CtxOk, Extends, Locals;
    LoadKeepsCtx(s.ctxs[d], Arrived(s, d));
  }

  lemma HandleLoadDoes(tr: Tree, build: Builder, s: Sys, d: Id)
    requires IsTree(tr) && Inv(tr, s) && Enabled(tr, s, HandleLoad(d)) && Arrived(s, d).fits
    ensures Loaded(s, Store(s, d), Apply(tr, build, s, HandleLoad(d)), d)
    ensures CtxOk(Apply(tr, build, s, HandleLoad(d)).ctxs[d])
  {
    hide Pending, LinkOk, CtxOk, RunAll, Ran, Loaded;
    var s1, s' := Store(s, d), Apply(tr, build, s, HandleLoad(d));
    CtxNamed(s.ctxs[d]);
    RunAllDoes(s1, d, Arrived(s, d).name, Released(s, d));
    RanIsLoaded(s, s', d);
    RanIsOk(s, s', d);
  }

  lemma HandleLoadKeeps(tr: Tree, build: Builder, s: Sys, d: Id)
    requires IsTree(tr) && Inv(tr, s) && Enabled(tr, s, HandleLoad(d))
    ensures Inv(tr, Apply(tr, build, s, HandleLoad(d)))
  {
    hide Inv, Loaded, CtxOk, RunAll, Store, Refuse;
    if Arrived(s, d).fits {
      HandleLoadDoes(tr, build, s, d);
      LoadedKeeps(tr, s, Store(s, d), Apply(tr, build, s, HandleLoad(d)), d);
    } else {
      RefuseKeeps(tr, s, d);
    }
  }

  lemma RefuseKeeps(tr: Tree, s: Sys, d: Id)
    requires Inv(tr, s) && d in s.links && s.links[d].arrived < |s.links[d].out.loads|
    ensures Inv(tr, Refuse(s, d))
  {
    hide CtxOk, Coming, LinkOk;
    var s' := Refuse(s, d);
    RefusedLink(s.links[d], s.ctxs[d], s'.links[d]);
    forall e, x | e in s'.links && x in s'.ctxs[e].callbacks && x != MITOGEN ensures NotLost(tr, s', e, x) {
      assert NotLost(tr, s, e, x);
      assert Represented(tr, s, e, x) ==> Represented(tr, s', e, x);
    }
  }

  lemma RefusedLink(l: Link, c: Ctx, l': Link)
    requires LinkOk(l, c) && l.arrived < |l.out.loads|
    requires l' == l.(arrived := l.arrived + 1, refused := l.refused + {l.out.loads[l.arrived].name})
    ensures LinkOk(l', c) && forall n :: Coming(l, n) ==> Coming(l', n) || n in l'.refused
  {
    forall n | Coming(l, n) && n != l.out.loads[l.arrived].name ensures Coming(l', n) {
      var i :| l.arrived <= i < |l.out.loads| && l.out.loads[i].name == n;
      assert l'.out.loads[i].name == n;
    }
  }

  lemma LoadedKeepsCtxs(tr: Tree, s: Sys, s1: Sys, s': Sys, d: Id)
    requires Inv(tr, s) && Loaded(s, s1, s', d) && CtxOk(s'.ctxs[d])
    ensures Domains(tr, s') && (forall n :: n in s'.ctxs ==> CtxOk(s'.ctxs[n]))
    ensures s'.links.Keys == s.links.Keys && s'.ctxs.Keys == s.ctxs.Keys
  {
    hide CtxOk, LinkOk, NotLost, Waits, Extends, Pending;
  }

  lemma LoadedKeepsLinks(tr: Tree, s: Sys, s1: Sys, s': Sys, d: Id)
    requires Inv(tr, s) && Loaded(s, s1, s', d) && s'.links.Keys == s.links.Keys && s'.ctxs.Keys == s.ctxs.Keys
    ensures forall e :: e in s'.links ==> e in s'.ctxs && LinkOk(s'.links[e], s'.ctxs[e])
  {
    hide Pending, LinkOk, CtxOk, Loaded;
    forall e | e in s'.links ensures e in s'.ctxs && LinkOk(s'.links[e], s'.ctxs[e]) {
      LoadedLink(s, s1, s', d, e);
    }
  }

  lemma LoadedKeepsPending(tr: Tree, s: Sys, s1: Sys, s': Sys, d: Id)
    requires Inv(tr, s) && Loaded(s, s1, s', d) && CtxOk(s'.ctxs[d])
    requires Domains(tr, s') && s'.links.Keys == s.links.Keys && forall n :: n in s'.ctxs ==> CtxOk(s'.ctxs[n])
    ensures Pending(tr, s')
  {
    hide NotLost, CtxOk, Loaded, Inv;
    forall e, x | e in s'.links && x in s'.ctxs[e].callbacks && x != MITOGEN ensures NotLost(tr, s', e, x) {
      LoadedPending(tr, s, s1, s', d, e, x);
    }
  }

  lemma LoadedKeeps(tr: Tree, s: Sys, s1: Sys, s': Sys, d: Id)
    requires Inv(tr, s) && Loaded(s, s1, s', d) && CtxOk(s'.ctxs[d])
    ensures Inv(tr, s')
  {
    hide LinkOk, CtxOk, Loaded, Domains, Pending;
    LoadedKeepsCtxs(tr, s, s1, s', d);
    LoadedKeepsLinks(tr, s, s1, s', d);
    LoadedKeepsPending(tr, s, s1, s', d);
  }

  /** `s1` is `s` with the oldest module for `d` taken off its link, `s'` is after the callbacks ran. */
  ghost predicate Loaded(s: Sys, s1: Sys, s': Sys, d: Id)
  {
    && d in s.links && d in s.ctxs && s.links[d].arrived < |s.links[d].out.loads|
    && var (c, l) := (s.ctxs[d], s.links[d]);
    var m := l.out.loads[l.arrived];
    && s1.links == s.links[d := l.(arrived := l.arrived + 1)]
    && s'.ctxs.Keys == s.ctxs.Keys && s'.links.Keys == s.links.Keys
    && (forall e :: e in s.ctxs && e != d ==> s'.ctxs[e] == s.ctxs[e])
    && s'.ctxs[d].cache == c.cache[m.name := m] && s'.ctxs[d].callbacks == c.callbacks - {m.name}
    && (forall e :: e in s1.links ==>
          && s'.links[e] == s1.links[e].(out := s'.links[e].out)
          && Extends(s1.links[e].out, s'.links[e].out)
          && (Waits(c, m.name, OnBehalf(e)) ==> m.name in s'.links[e].out.sent))
  }

  lemma LoadedLink(s: Sys, s1: Sys, s': Sys, d: Id, e: Id)
    requires Loaded(s, s1, s', d) && e in s.links && e in s.ctxs && LinkOk(s.links[e], s.ctxs[e])
    ensures LinkOk(s'.links[e], s'.ctxs[e])
    ensures forall n :: Coming(s.links[e], n) && (e != d || n != s.links[d].out.loads[s.links[d].arrived].name) ==>
      Coming(s'.links[e], n)
  {
    if e == d {
      ArrivedLink(s.links[d], s.ctxs[d], s'.ctxs[d]);
    }
    ExtendedLink(s1.links[e], s'.links[e].out, s'.ctxs[e]);
  }

  lemma LoadedPending(tr: Tree, s: Sys, s1: Sys, s': Sys, d: Id, e: Id, x: Name)
    requires Inv(tr, s) && Loaded(s, s1, s', d) && e in s.links && e in s'.ctxs && x != MITOGEN
    requires x in s'.ctxs[e].callbacks && CtxOk(s'.ctxs[e])
    ensures NotLost(tr, s', e, x)
  {
    hide CtxOk, LinkOk, Extends;
    var name := s.links[d].out.loads[s.links[d].arrived].name;
    assert NotLost(tr, s, e, x);
    LoadedLink(s, s1, s', d, e);
    if Represented(tr, s, e, x) && !Represented(tr, s', e, x) {
      assert tr.up(e) == d && x == name;
      AnsweredIsComing(s'.links[e], s'.ctxs[e], name);
    }
  }

  lemma CutKeeps(tr: Tree, build: Builder, s: Sys, d: Id)
    requires Inv(tr, s) && Enabled(tr, s, Cut(d))
    ensures Inv(tr, Apply(tr, build, s, Cut(d)))
  {
    hide CtxOk, LinkOk;
    var s' := Apply(tr, build, s, Cut(d));
    forall e, x | e in s'.links && x in s'.ctxs[e].callbacks && x != MITOGEN ensures NotLost(tr, s', e, x) {
      assert NotLost(tr, s, e, x);
      assert Represented(tr, s, e, x) ==> Represented(tr, s', e, x);
    }
  }

  lemma AttachKeeps(tr: Tree, build: Builder, s: Sys, d: Id)
    requires IsTree(tr) && Inv(tr, s) && Enabled(tr, s, Attach(d))
    ensures Inv(tr, Apply(tr, build, s, Attach(d)))
  {
    hide CtxOk, LinkOk;
    var s' := Apply(tr, build, s, Attach(d));
    NewIsOk();
    forall e, x | e in s'.links && x in s'.ctxs[e].callbacks && x != MITOGEN ensures NotLost(tr, s', e, x) {
      assert NotLost(tr, s, e, x);
      assert Represented(tr, s, e, x) ==> Represented(tr, s', e, x);
    }
  }

  lemma NewIsOk()
    ensures CtxOk(NEW_CTX) && LinkOk(NEW_LINK, NEW_CTX)
  {
  }

  lemma StepKeeps(tr: Tree, build: Builder, s: Sys, e: Event)
    requires IsTree(tr) && BuilderNames(build) && Inv(tr, s) && Enabled(tr, s, e)
    ensures Inv(tr, Apply(tr, build, s, e))
  {
    match e
    case Attach(d) => AttachKeeps(tr, build, s, d);
    case Request(n, name, id) => RequestKeeps(tr, build, s, n, name, id);
    case HandleGet(d) => HandleGetKeeps(tr, build, s, d);
    case HandleLoad(d) => HandleLoadKeeps(tr, build, s, d);
    case Push(d, name) => PushKeeps(tr, build, s, d, name);
    case Cut(d) => CutKeeps(tr, build, s, d);
  }

  // ---------------------------------------------------------------- whole runs

  const START := Sys(map[MASTER := NEW_CTX], map[])

  ghost predicate CanRun(tr: Tree, build: Builder, s: Sys, events: seq<Event>)
    decreases |events|
  {
    events == [] || (Enabled(tr, s, events[0]) && CanRun(tr, build, Apply(tr, build, s, events[0]), events[1..]))
  }

  ghost function Run(tr: Tree, build: Builder, s: Sys, events: seq<Event>): Sys
    requires CanRun(tr, build, s, events)
    decreases |events|
  {
    if events == [] then s else Run(tr, build, Apply(tr, build, s, events[0]), events[1..])
  }

  lemma {:induction false} RunKeeps(tr: Tree, build: Builder, s: Sys, events: seq<Event>)
    requires IsTree(tr) && BuilderNames(build) && Inv(tr, s) && CanRun(tr, build, s, events)
    ensures Inv(tr, Run(tr, build, s, events))
    decreases |events|
  {
    hide Inv, Enabled, Apply;
    if events != [] {
      StepKeeps(tr, build, s, events[0]);
      RunKeeps(tr, build, Apply(tr, build, s, events[0]), events[1..]);
    }
  }

  /** What went up a link is what the context has asked for. */
  ghost predicate AskedOk(s: Sys)
  {
    forall d :: d in s.links ==> d in s.ctxs && s.links[d].taken + s.links[d].gets == s.ctxs[d].asked
  }

  /** Only answers were sent, and callbacks run. */
  ghost predicate SameAsked(s: Sys, s': Sys)
  {
    && s'.ctxs.Keys == s.ctxs.Keys && s'.links.Keys == s.links.Keys
    && (forall n :: n in s.ctxs ==> s'.ctxs[n].asked == s.ctxs[n].asked && s'.ctxs[n].issued == s.ctxs[n].issued)
    && (forall d :: d in s.links ==> s'.links[d].taken == s.links[d].taken && s'.links[d].gets == s.links[d].gets)
  }

  lemma {:induction false} RunAllKeepsAsked(s: Sys, n: Id, name: Name, cbs: seq<Callback>)
    requires n in s.ctxs && name in s.ctxs[n].cache
    ensures SameAsked(s, RunAll(s, n, name, cbs))
    decreases |cbs|
  {
    if cbs != [] {
      assert SameAsked(s, RunOne(s, n, name, cbs[0]));
      RunAllKeepsAsked(RunOne(s, n, name, cbs[0]), n, name, cbs[1..]);
    }
  }

  lemma WaitKeepsAsked(s: Sys, n: Id, name: Name, cb: Callback)
    requires AskedOk(s) && n in s.ctxs
    ensures AskedOk(Wait(s, n, name, cb))
  {
    hide Waiting;
    if n in s.links {
      assert s.links[n].taken + (s.links[n].gets + [name]) == s.ctxs[n].asked + [name];
    }
  }

  lemma HandleGetKeepsAsked(tr: Tree, build: Builder, s: Sys, d: Id)
    requires AskedOk(s) && Enabled(tr, s, HandleGet(d))
    ensures AskedOk(Apply(tr, build, s, HandleGet(d)))
  {
    hide Respond, SendCached, Wait;
    var l := s.links[d];
    assert l.taken + [l.gets[0]] + l.gets[1..] == l.taken + l.gets;
    var s' := s.(links := s.links[d := TakeGet(l)]);
    assert AskedOk(s');
    if tr.up(d) != MASTER && l.gets[0] !in s.ctxs[tr.up(d)].cache {
      WaitKeepsAsked(s', tr.up(d), l.gets[0], OnBehalf(d));
    }
  }

  lemma StepKeepsAsked(tr: Tree, build: Builder, s: Sys, e: Event)
    requires AskedOk(s) && Enabled(tr, s, e)
    ensures AskedOk(Apply(tr, build, s, e))
  {
    hide Respond, SendCached, Wait, RunAll;
    match e {
      case Request(n, name, id) =>
        WaitKeepsAsked(s.(ctxs := s.ctxs[n := s.ctxs[n].(issued := s.ctxs[n].issued[id := name])]), n, name, Local(id));
      case HandleGet(d) => HandleGetKeepsAsked(tr, build, s, d);
      case HandleLoad(d) =>
        if Arrived(s, d).fits {
          RunAllKeepsAsked(Store(s, d), d, Arrived(s, d).name, Released(s, d));
        }
      case _ =>
    }
  }

  lemma {:induction false} RunKeepsAsked(tr: Tree, build: Builder, s: Sys, events: seq<Event>)
    requires AskedOk(s) && CanRun(tr, build, s, events)
    ensures AskedOk(Run(tr, build, s, events))
    decreases |events|
  {
    hide AskedOk, Enabled, Apply;
    if events != [] {
      StepKeepsAsked(tr, build, s, events[0]);
      RunKeepsAsked(tr, build, Apply(tr, build, s, events[0]), events[1..]);
    }
  }

  /**
   In every run: a module a context waits for is not cached there, and is being asked for, or waited
   for by its parent on its behalf, or on its way; no context asks for a module twice, as the requests
   written to its parent are those in `asked`; and a local callback runs once, after its module came.
   */
  lemma NoRequestIsLost(tr: Tree, build: Builder, events: seq<Event>, n: Id)
    requires IsTree(tr) && BuilderNames(build) && CanRun(tr, build, START, events)
    requires n in Run(tr, build, START, events).ctxs
    ensures var s := Run(tr, build, START, events);
            var c := s.ctxs[n];
            && Distinct(c.asked) && Distinct(c.ran)
            && (n in s.links ==> s.links[n].taken + s.links[n].gets == c.asked)
            && (forall id :: id in c.issued ==>
                  if c.issued[id] in c.cache then id in c.ran else id !in c.ran && Waits(c, c.issued[id], Local(id)))
            && (forall x :: x in c.callbacks ==>
                  x !in c.cache && (n in s.links && x != MITOGEN ==> NotLost(tr, s, n, x)))
  {
    NewIsOk();
    RunKeeps(tr, build, START, events);
    RunKeepsAsked(tr, build, START, events);
    var s := Run(tr, build, START, events);
    assert CtxOk(s.ctxs[n]);
  }

  /** What was once issued is never forgotten. */
  ghost predicate KeepsIssued(s: Sys, s': Sys)
  {
    forall n, id :: n in s.ctxs && id in s.ctxs[n].issued ==>
      n in s'.ctxs && id in s'.ctxs[n].issued && s'.ctxs[n].issued[id] == s.ctxs[n].issued[id]
  }

  lemma StepKeepsIssued(tr: Tree, build: Builder, s: Sys, e: Event)
    requires Enabled(tr, s, e)
    ensures KeepsIssued(s, Apply(tr, build, s, e))
  {
    hide Respond, SendCached, RunAll;
    if e.HandleLoad? && Arrived(s, e.d).fits {
      RunAllKeepsAsked(Store(s, e.d), e.d, Arrived(s, e.d).name, Released(s, e.d));
    }
  }

  lemma {:induction false} RunKeepsIssued(tr: Tree, build: Builder, s: Sys, events: seq<Event>)
    requires CanRun(tr, build, s, events)
    ensures KeepsIssued(s, Run(tr, build, s, events))
    decreases |events|
  {
    hide Enabled, Apply;
    if events != [] {
      StepKeepsIssued(tr, build, s, events[0]);
      RunKeepsIssued(tr, build, Apply(tr, build, s, events[0]), events[1..]);
    }
  }

  lemma ImportIsIssued(tr: Tree, build: Builder, s: Sys, e: Event)
    requires Enabled(tr, s, e) && e.Request?
    ensures var s' := Apply(tr, build, s, e);
            e.n in s'.ctxs && e.id in s'.ctxs[e.n].issued && s'.ctxs[e.n].issued[e.id] == e.name
  {
  }

  /** Every import of a run is accounted for by the theorems about `issued`. */
  lemma {:induction false} ImportsAreIssued(tr: Tree, build: Builder, s: Sys, events: seq<Event>, k: nat)
    requires CanRun(tr, build, s, events) && k < |events| && events[k].Request?
    ensures var s', e := Run(tr, build, s, events), events[k];
            e.n in s'.ctxs && e.id in s'.ctxs[e.n].issued && s'.ctxs[e.n].issued[e.id] == e.name
    decreases |events|
  {
    hide Apply, Enabled;
    var s1 := Apply(tr, build, s, events[0]);
    if k == 0 {
      ImportIsIssued(tr, build, s, events[0]);
      RunKeepsIssued(tr, build, s1, events[1..]);
    } else {
      ImportsAreIssued(tr, build, s1, events[1..], k - 1);
    }
  }

  /** A module that is sent unasked is there, or on its way, or was too large. */
  lemma PushDelivers(tr: Tree, build: Builder, s: Sys, d: Id, name: Name)
    requires IsTree(tr) && BuilderNames(build) && Inv(tr, s) && Enabled(tr, s, Push(d, name)) && name != MITOGEN
    ensures var s' := Apply(tr, build, s, Push(d, name));
            name in s'.ctxs[d].cache || Coming(s'.links[d], name) || name in s'.links[d].refused
  {
    hide CtxOk, NotLost, Respond, Extends;
    PushKeeps(tr, build, s, d, name);
    var s' := Apply(tr, build, s, Push(d, name));
    if tr.up(d) == MASTER {
      MasterAnswers(build, s.links[d].out, name);
      ExtendedLink(s.links[d], s'.links[d].out, s.ctxs[d]);
    } else {
      CtxNamed(s.ctxs[tr.up(d)]);
      ForwardDoes(s, tr.up(d), d, name);
    }
  }

  /** Nothing is in flight on any link. */
  predicate Quiet(s: Sys)
  {
    forall d :: d in s.links ==> s.links[d].gets == [] && s.links[d].arrived == |s.links[d].out.loads|
  }

  /** The contexts from which every link up to the master is up. */
  ghost predicate Attached(tr: Tree, s: Sys, n: Id)
    requires IsTree(tr)
    decreases tr.depth(n)
  {
    n == MASTER || (n in s.links && Attached(tr, s, tr.up(n)))
  }

  lemma {:induction false} NobodyWaits(tr: Tree, build: Builder, s: Sys, n: Id, name: Name)
    requires IsTree(tr) && Inv(tr, s) && Quiet(s) && n in s.ctxs && name != MITOGEN
    requires Attached(tr, s, n) && PackageNowhere(build, s) && !Big(build, name)
    ensures name !in s.ctxs[n].callbacks
    decreases tr.depth(n)
  {
    hide CtxOk, LinkOk, Withholds, CacheOk;
    if n != MASTER && name in s.ctxs[n].callbacks {
      assert NotLost(tr, s, n, name);
      NobodyWaits(tr, build, s, tr.up(n), name);
    }
  }

  // ---------------------------------------------------------------- the package itself, and large modules

  /** Building the module gives one whose message is too large. No context asks for the core, which it has. */
  predicate Big(build: Builder, name: Name)
  {
    name != CORE && build(name).Some? && !build(name).value.fits
  }

  /** An exception may end the master's attempt to send it. */
  ghost predicate MayRaise(build: Builder, name: Name)
  {
    build(name).None? || exists r :: r in build(name).value.related && build(r).None?
  }

  /** The tuple the master built, or its negative answer after an exception. */
  ghost predicate Genuine(build: Builder, m: Module)
  {
    build(m.name) == Some(m) || (m == Module(m.name, false, [], true) && MayRaise(build, m.name))
  }

  /** The package and the core are recorded as sent, and not among what was sent. */
  ghost predicate Withholds(build: Builder, o: Outgoing)
  {
    && MITOGEN in o.sent && CORE in o.sent
    && forall i :: 0 <= i < |o.loads| ==>
      o.loads[i].name != MITOGEN && o.loads[i].name != CORE && Genuine(build, o.loads[i])
  }

  ghost predicate CacheOk(build: Builder, cache: map<Name, Module>)
  {
    && CORE in cache
    && forall x :: x in cache ==>
      && x != MITOGEN && cache[x].name == x
      && if x == CORE then cache[x] == Module(CORE, true, [], true) else cache[x].fits && Genuine(build, cache[x])
  }

  /** No context has the package, and what they have was built by the master and was not too large. */
  ghost predicate PackageNowhere(build: Builder, s: Sys)
  {
    && (forall n :: n in s.ctxs ==> CacheOk(build, s.ctxs[n].cache))
    && (forall d :: d in s.links ==>
          Withholds(build, s.links[d].out) && forall x :: x in s.links[d].refused ==> Big(build, x))
  }

  lemma SendWithholds(build: Builder, o: Outgoing, m: Module)
    requires Withholds(build, o) && m.name != MITOGEN && m.name != CORE && Genuine(build, m)
    ensures Withholds(build, Outgoing(o.sent + {m.name}, o.loads + [m])) && Withholds(build, o.(loads := o.loads + [m]))
  {
    hide Genuine;
  }

  lemma BuiltIsGenuine(build: Builder, name: Name)
    requires BuilderNames(build) && build(name).Some?
    ensures Genuine(build, build(name).value)
  {
  }

  lemma {:induction false} SendCachedWithholds(
    build: Builder, cache: map<Name, Module>, o: Outgoing, names: seq<Name>)
    requires Withholds(build, o) && CacheOk(build, cache)
    ensures Withholds(build, SendCached(cache, o, names))
    decreases |names|
  {
    hide Withholds, Genuine;
    if names != [] {
      var x := names[0];
      SentAtFirst(build, o);
      if x in cache && x !in o.sent {
        SendWithholds(build, o, cache[x]);
      }
      SendCachedWithholds(build, cache, if x in cache then SendOne(o, cache[x]) else o, names[1..]);
    }
  }

  lemma SentAtFirst(build: Builder, o: Outgoing)
    requires Withholds(build, o)
    ensures MITOGEN in o.sent && CORE in o.sent
  {
  }

  lemma {:induction false} SendRelatedWithholds(build: Builder, name: Name, o: Outgoing, related: seq<Name>)
    requires BuilderNames(build) && Withholds(build, o)
    ensures Withholds(build, SendRelated(build, name, o, related).0)
    ensures !SendRelated(build, name, o, related).1 ==> exists r :: r in related && build(r).None?
    decreases |related|
  {
    hide Withholds, Genuine;
    if related != [] {
      var r := related[0];
      SentAtFirst(build, o);
      if (TopLevel(r) != name && TopLevel(r) !in o.sent) || r in o.sent {
        SendRelatedWithholds(build, name, o, related[1..]);
      } else if build(r).None? {
        assert r in related;
      } else {
        BuiltIsGenuine(build, r);
        SendWithholds(build, o, build(r).value);
        SendRelatedWithholds(build, name, SendNamed(o, r, build(r).value), related[1..]);
      }
    }
  }

  lemma RespondWithholds(build: Builder, o: Outgoing, name: Name)
    requires BuilderNames(build) && Withholds(build, o)
    ensures Withholds(build, Respond(build, o, name))
  {
    hide Withholds;
    SentAtFirst(build, o);
    if name !in o.sent {
      var negative := Module(name, false, [], true);
      if build(name).None? {
        SendWithholds(build, o, negative);
      } else {
        var (o', ok) := SendRelated(build, name, o, build(name).value.related);
        SendRelatedWithholds(build, name, o, build(name).value.related);
        BuiltIsGenuine(build, name);
        SendWithholds(build, o', if ok then build(name).value else negative);
      }
    }
  }

  lemma {:induction false} RunAllWithholds(build: Builder, s: Sys, n: Id, name: Name, cbs: seq<Callback>)
    requires PackageNowhere(build, s) && n in s.ctxs && name in s.ctxs[n].cache
    ensures PackageNowhere(build, RunAll(s, n, name, cbs))
    decreases |cbs|
  {
    hide Withholds, CacheOk;
    if cbs != [] {
      if cbs[0].OnBehalf? {
        ForwardWithholds(build, s, n, cbs[0].child, name);
      }
      RunAllWithholds(build, RunOne(s, n, name, cbs[0]), n, name, cbs[1..]);
    }
  }

  lemma ForwardWithholds(build: Builder, s: Sys, n: Id, d: Id, name: Name)
    requires PackageNowhere(build, s) && n in s.ctxs && name in s.ctxs[n].cache
    ensures PackageNowhere(build, Forward(s, n, d, name))
  {
    hide Withholds, CacheOk;
    if d in s.links {
      SendCachedWithholds(build, s.ctxs[n].cache, s.links[d].out, s.ctxs[n].cache[name].related + [name]);
    }
  }

  /** Waiting changes no cache, and nothing that was sent. */
  lemma WaitWithholds(build: Builder, s: Sys, n: Id, name: Name, cb: Callback)
    requires PackageNowhere(build, s) && n in s.ctxs
    ensures PackageNowhere(build, Wait(s, n, name, cb))
  {
    hide Withholds, CacheOk, Waiting;
  }

  lemma HandleGetWithholds(tr: Tree, build: Builder, s: Sys, d: Id)
    requires BuilderNames(build) && PackageNowhere(build, s) && Enabled(tr, s, HandleGet(d))
    ensures PackageNowhere(build, Apply(tr, build, s, HandleGet(d)))
  {
    hide Withholds, CacheOk, SendCached, Respond, Wait, Forward;
    var c, l := tr.up(d), s.links[d];
    var s' := s.(links := s.links[d := TakeGet(l)]);
    if c == MASTER {
      RespondWithholds(build, l.out, l.gets[0]);
    } else if l.gets[0] in s.ctxs[c].cache {
      ForwardWithholds(build, s', c, d, l.gets[0]);
    } else {
      WaitWithholds(build, s', c, l.gets[0], OnBehalf(d));
    }
  }

  lemma StepWithholds(tr: Tree, build: Builder, s: Sys, e: Event)
    requires BuilderNames(build) && PackageNowhere(build, s) && Enabled(tr, s, e)
    ensures PackageNowhere(build, Apply(tr, build, s, e))
  {
    hide Withholds, CacheOk, SendCached, Respond, Wait, Forward;
    match e {
      case Attach(d) => NothingSent(build);
      case Request(n, name, id) =>
        var c := s.ctxs[n].(issued := s.ctxs[n].issued[id := name]);
        if name !in c.cache {
          WaitWithholds(build, s.(ctxs := s.ctxs[n := c]), n, name, Local(id));
        }
      case HandleGet(d) => HandleGetWithholds(tr, build, s, d);
      case HandleLoad(d) =>
        StoreWithholds(build, s, d);
        if Arrived(s, d).fits {
          RunAllWithholds(build, Store(s, d), d, Arrived(s, d).name, Released(s, d));
        }
      case Push(d, name) =>
        RespondWithholds(build, s.links[d].out, name);
        if tr.up(d) != MASTER {
          ForwardWithholds(build, s, tr.up(d), d, name);
        }
      case Cut(d) =>
    }
  }

  lemma NothingSent(build: Builder)
    ensures Withholds(build, NEW_LINK.out) && CacheOk(build, NEW_CTX.cache) && PackageNowhere(build, START)
  {
  }

  lemma StoreWithholds(build: Builder, s: Sys, d: Id)
    requires PackageNowhere(build, s) && d in s.links && d in s.ctxs
    requires s.links[d].arrived < |s.links[d].out.loads|
    ensures Arrived(s, d).fits ==> PackageNowhere(build, Store(s, d))
    ensures !Arrived(s, d).fits ==> PackageNowhere(build, Refuse(s, d))
  {
    hide MayRaise;
  }

  lemma {:induction false} RunWithholds(tr: Tree, build: Builder, s: Sys, events: seq<Event>)
    requires BuilderNames(build) && PackageNowhere(build, s) && CanRun(tr, build, s, events)
    ensures PackageNowhere(build, Run(tr, build, s, events))
    decreases |events|
  {
    hide Enabled, Apply, PackageNowhere;
    if events != [] {
      StepWithholds(tr, build, s, events[0]);
      RunWithholds(tr, build, Apply(tr, build, s, events[0]), events[1..]);
    }
  }

  /**
   Which requests are answered. In every run a request for the package `mitogen` itself never is: every link
   starts with it recorded as sent, while a new context does not have it cached. One for a module that is too
   large is answered negatively at most, and never if neither it nor a related one fails to be built. Any other
   request of an attached context has been answered, and its callback has run, as soon as nothing is in flight.
   */
  lemma AnsweredIffItFits(tr: Tree, build: Builder, events: seq<Event>, n: Id, id: nat)
    requires IsTree(tr) && BuilderNames(build) && CanRun(tr, build, START, events)
    requires n in Run(tr, build, START, events).ctxs && id in Run(tr, build, START, events).ctxs[n].issued
    ensures var s := Run(tr, build, START, events); var c := s.ctxs[n]; var x := c.issued[id];
            && (x == MITOGEN ==> id !in c.ran && Waits(c, x, Local(id)))
            && (id in c.ran ==> x in c.cache && (x != CORE ==> c.cache[x].fits && Genuine(build, c.cache[x])))
            && (Quiet(s) && Attached(tr, s, n) && x != MITOGEN && !Big(build, x) ==>
                  id in c.ran && x in c.cache && x !in c.callbacks)
            && (Quiet(s) && Attached(tr, s, n) && !MayRaise(build, x) ==>
                  (id in c.ran <==> x != MITOGEN && !Big(build, x)))
  {
    hide Run, CanRun;
    NewIsOk();
    RunKeeps(tr, build, START, events);
    NothingSent(build);
    RunWithholds(tr, build, START, events);
    AnsweredIn(tr, build, Run(tr, build, START, events), n, id);
  }

  lemma AnsweredIn(tr: Tree, build: Builder, s: Sys, n: Id, id: nat)
    requires IsTree(tr) && Inv(tr, s) && PackageNowhere(build, s) && n in s.ctxs && id in s.ctxs[n].issued
    ensures var c := s.ctxs[n]; var x := c.issued[id];
            && (x == MITOGEN ==> id !in c.ran && Waits(c, x, Local(id)))
            && (id in c.ran ==> x in c.cache && (x != CORE ==> c.cache[x].fits && Genuine(build, c.cache[x])))
            && (Quiet(s) && Attached(tr, s, n) && x != MITOGEN && !Big(build, x) ==>
                  id in c.ran && x in c.cache && x !in c.callbacks)
  {
    hide LinkOk, Pending, Withholds, MayRaise;
    assert CtxOk(s.ctxs[n]) && CacheOk(build, s.ctxs[n].cache);
    var x := s.ctxs[n].issued[id];
    if x != MITOGEN && !Big(build, x) && Quiet(s) && Attached(tr, s, n) {
      NobodyWaits(tr, build, s, n, x);
    }
  }

  /**
   Nothing is made up or altered on the way: whatever a context has cached, other than the core it started
   with, is the tuple the master built, or its negative answer where building that or a related one raises.
   */
  lemma CachedIsWhatWasBuilt(tr: Tree, build: Builder, events: seq<Event>, n: Id, x: Name)
    requires BuilderNames(build) && CanRun(tr, build, START, events)
    requires n in Run(tr, build, START, events).ctxs && x in Run(tr, build, START, events).ctxs[n].cache
    ensures var m := Run(tr, build, START, events).ctxs[n].cache[x];
            if x == CORE then m == Module(CORE, true, [], true)
            else build(x) == Some(m) || (m == Module(x, false, [], true) && MayRaise(build, x))
  {
    hide Run, CanRun, MayRaise;
    NothingSent(build);
    RunWithholds(tr, build, START, events);
    assert CacheOk(build, Run(tr, build, START, events).ctxs[n].cache);
  }

  /** The shortest run that shows it. */
  lemma PackageRequestIsLost(tr: Tree, build: Builder)
    requires IsTree(tr) && tr.up(1) == MASTER
    ensures var events := [Attach(1), Request(1, MITOGEN, 0), HandleGet(1)];
            && CanRun(tr, build, START, events)
            && var s := Run(tr, build, START, events);
               Quiet(s) && 1 in s.ctxs && MITOGEN in s.ctxs[1].callbacks && MITOGEN !in s.ctxs[1].cache
  {
    var s1 := Apply(tr, build, START, Attach(1));
    var s2 := Apply(tr, build, s1, Request(1, MITOGEN, 0));
    assert s2.links[1] == Link([], [MITOGEN], NEW_LINK.out, 0, {});
    var s3 := Apply(tr, build, s2, HandleGet(1));
    assert s3.links[1] == Link([MITOGEN], [], NEW_LINK.out, 0, {}) && s3.links.Keys == {1};
    var e3, e2 := [HandleGet(1)], [Request(1, MITOGEN, 0), HandleGet(1)];
    assert e3[1..] == [] && e2[1..] == e3 && [Attach(1), Request(1, MITOGEN, 0), HandleGet(1)][1..] == e2;
    assert CanRun(tr, build, s3, []) && Run(tr, build, s3, []) == s3;
    assert CanRun(tr, build, s2, e3) && Run(tr, build, s2, e3) == s3;
    assert CanRun(tr, build, s1, e2) && Run(tr, build, s1, e2) == s3;
  }

  /** And with a large module that has no related ones. */
  lemma LargeModuleIsLost(tr: Tree, build: Builder, x: Name)
    requires IsTree(tr) && tr.up(1) == MASTER && x != MITOGEN
    requires Big(build, x) && build(x).value.related == [] && build(x).value.name == x
    ensures var events := [Attach(1), Request(1, x, 0), HandleGet(1), HandleLoad(1)];
            && CanRun(tr, build, START, events)
            && var s := Run(tr, build, START, events);
               Quiet(s) && 1 in s.ctxs && x in s.ctxs[1].callbacks && x !in s.ctxs[1].cache
  {
    var s1 := Apply(tr, build, START, Attach(1));
    var s2 := Apply(tr, build, s1, Request(1, x, 0));
    assert s2.links[1] == Link([], [x], NEW_LINK.out, 0, {}) && x !in NEW_LINK.out.sent;
    var s3 := Apply(tr, build, s2, HandleGet(1));
    assert s3.links[1] == Link([x], [], Outgoing({MITOGEN, CORE} + {x}, [] + [build(x).value]), 0, {}) by {
      assert SendRelated(build, x, NEW_LINK.out, []) == (NEW_LINK.out, true);
    }
    var s4 := Apply(tr, build, s3, HandleLoad(1));
    assert s4.ctxs == s2.ctxs && s4.links[1].arrived == 1 && s4.links.Keys == {1};
    RunFour(tr, build, Attach(1), Request(1, x, 0), HandleGet(1), HandleLoad(1));
  }

  lemma RunFour(tr: Tree, build: Builder, a: Event, b: Event, c: Event, d: Event)
    requires Enabled(tr, START, a)
    requires var s1 := Apply(tr, build, START, a);
             && Enabled(tr, s1, b)
             && var s2 := Apply(tr, build, s1, b);
             && Enabled(tr, s2, c)
             && Enabled(tr, Apply(tr, build, s2, c), d)
    ensures CanRun(tr, build, START, [a, b, c, d])
    ensures var s1 := Apply(tr, build, START, a);
            var s2 := Apply(tr, build, s1, b);
            Run(tr, build, START, [a, b, c, d]) == Apply(tr, build, Apply(tr, build, s2, c), d)
  {
    hide Apply, Enabled;
    var s1 := Apply(tr, build, START, a);
    var s2 := Apply(tr, build, s1, b);
    var s3 := Apply(tr, build, s2, c);
    var s4 := Apply(tr, build, s3, d);
    assert CanRun(tr, build, s4, []) && Run(tr, build, s4, []) == s4;
    assert [d][1..] == [] && CanRun(tr, build, s3, [d]) && Run(tr, build, s3, [d]) == s4;
    assert [c, d][1..] == [d] && CanRun(tr, build, s2, [c, d]) && Run(tr, build, s2, [c, d]) == s4;
    assert [b, c, d][1..] == [c, d] && CanRun(tr, build, s1, [b, c, d]) && Run(tr, build, s1, [b, c, d]) == s4;
    assert [a, b, c, d][1..] == [b, c, d];
  }

  // ---------------------------------------------------------------- progress

  /** Callbacks that wait on behalf of a child. */
  function Behalf(cbs: seq<Callback>): nat
  {
    if cbs == [] then 0 else Behalf(cbs[..|cbs| - 1]) + (if cbs[|cbs| - 1].OnBehalf? then 1 else 0)
  }

  function BehalfOf(c: Ctx, name: Name): nat
  {
    if name in c.callbacks then Behalf(c.callbacks[name]) else 0
  }

  ghost function Owed(s: Sys, n: Id): nat
  {
    if n in s.ctxs then Total(s.ctxs[n].callbacks.Keys, (x: Name) => BehalfOf(s.ctxs[n], x)) else 0
  }

  /** What the requests queued on a link may still cause: a request goes up, and leaves a callback behind. */
  function Asking(tr: Tree, s: Sys, d: Id): nat
  {
    if d in s.links then 2 * (|s.links[d].gets| * tr.depth(d)) else 0
  }

  function Unread(s: Sys, d: Id): nat
  {
    if d in s.links && s.links[d].arrived <= |s.links[d].out.loads| then |s.links[d].out.loads| - s.links[d].arrived
    else 0
  }

  ghost function Duties(tr: Tree, s: Sys): nat
  {
    Total(s.links.Keys, (d: Id) => Asking(tr, s, d)) + Total(s.ctxs.Keys, (n: Id) => Owed(s, n))
  }

  ghost function Loads(s: Sys): nat
  {
    Total(s.links.Keys, (d: Id) => Unread(s, d))
  }

  lemma BehalfSnoc(cbs: seq<Callback>, cb: Callback)
    ensures Behalf(cbs + [cb]) == Behalf(cbs) + (if cb.OnBehalf? then 1 else 0)
  {
    assert (cbs + [cb])[..|cbs|] == cbs;
  }

  lemma {:induction false} BehalfNone(cbs: seq<Callback>)
    ensures Behalf(cbs) == 0 <==> forall k :: 0 <= k < |cbs| ==> cbs[k].Local?
  {
    if cbs != [] {
      BehalfNone(cbs[..|cbs| - 1]);
    }
  }

  /** A callback more for a module raises what is owed by one, if it is on behalf of a child. */
  lemma WaitOwes(s: Sys, s': Sys, n: Id, name: Name, cb: Callback)
    requires n in s.ctxs && n in s'.ctxs && s'.ctxs[n].callbacks == Waiting(s.ctxs[n].callbacks, name, cb)
    ensures Owed(s', n) == Owed(s, n) + (if cb.OnBehalf? then 1 else 0)
  {
    var c, c' := s.ctxs[n], s'.ctxs[n];
    var f: Name -> nat, g: Name -> nat := (x: Name) => BehalfOf(c, x), (x: Name) => BehalfOf(c', x);
    BehalfSnoc(if name in c.callbacks then c.callbacks[name] else [], cb);
    if name in c.callbacks {
      assert c'.callbacks.Keys == c.callbacks.Keys;
      TotalChange(c.callbacks.Keys, name, f, g);
    } else {
      assert c'.callbacks.Keys - {name} == c.callbacks.Keys;
      TotalWithout(c'.callbacks.Keys, name, g);
      TotalSame(c.callbacks.Keys, f, g);
    }
  }

  /** Releasing callbacks lowers it by as many as were on behalf of a child. */
  lemma ReleaseOwes(s: Sys, s': Sys, n: Id, name: Name)
    requires n in s.ctxs && n in s'.ctxs && s'.ctxs[n].callbacks == s.ctxs[n].callbacks - {name}
    ensures Owed(s, n) == Owed(s', n) + BehalfOf(s.ctxs[n], name)
  {
    var c, c' := s.ctxs[n], s'.ctxs[n];
    var f: Name -> nat, g: Name -> nat := (x: Name) => BehalfOf(c, x), (x: Name) => BehalfOf(c', x);
    assert c'.callbacks.Keys == c.callbacks.Keys - {name};
    if name in c.callbacks {
      TotalWithout(c.callbacks.Keys, name, f);
    } else {
      assert c'.callbacks.Keys == c.callbacks.Keys;
    }
    TotalSame(c'.callbacks.Keys, f, g);
  }

  lemma AskingLess(n: nat, depth: nat)
    requires n > 0
    ensures 2 * ((n - 1) * depth) == 2 * (n * depth) - 2 * depth
  {
    assert (n - 1) * depth == n * depth - depth;
  }

  /** A request that is answered at once: one less on its link, and all callbacks as before. */
  lemma AnswerUsesUp(tr: Tree, s: Sys, s': Sys, d: Id)
    requires d in s.links && s.links[d].gets != [] && tr.depth(d) > 0
    requires s'.links.Keys == s.links.Keys && s'.ctxs == s.ctxs && |s'.links[d].gets| == |s.links[d].gets| - 1
    requires forall e :: e in s.links && e != d ==> s'.links[e].gets == s.links[e].gets
    ensures Duties(tr, s') < Duties(tr, s)
  {
    hide Total, Owed;
    AskingLess(|s.links[d].gets|, tr.depth(d));
    TotalChange(s.links.Keys, d, (e: Id) => Asking(tr, s, e), (e: Id) => Asking(tr, s', e));
    forall n | n in s.ctxs ensures Owed(s', n) == Owed(s, n) {
      SameOwed(s, s', n);
    }
    TotalSame(s.ctxs.Keys, (n: Id) => Owed(s, n), (n: Id) => Owed(s', n));
  }

  lemma SameOwed(s: Sys, s': Sys, n: Id)
    requires n in s.ctxs && n in s'.ctxs && s'.ctxs[n].callbacks == s.ctxs[n].callbacks
    ensures Owed(s', n) == Owed(s, n)
  {
    TotalSame(s.ctxs[n].callbacks.Keys, (x: Name) => BehalfOf(s.ctxs[n], x), (x: Name) => BehalfOf(s'.ctxs[n], x));
  }

  lemma AskingMore(n: nat, n': nat, depth: nat)
    requires n' <= n + 1
    ensures 2 * (n' * depth) <= 2 * (n * depth) + 2 * depth
  {
    TimesGrows(n', n + 1, depth);
    assert (n + 1) * depth == n * depth + depth;
  }

  /** A request that is passed on: one less on its link, a callback at the parent, perhaps one more on the next link. */
  lemma PassingOnUsesUp(tr: Tree, s: Sys, s': Sys, d: Id, c: Id, name: Name)
    requires d in s.links && s.links[d].gets != [] && c in s.ctxs && c != d && tr.depth(c) < tr.depth(d)
    requires s'.links.Keys == s.links.Keys && s'.ctxs.Keys == s.ctxs.Keys
    requires |s'.links[d].gets| == |s.links[d].gets| - 1
    requires forall e :: e in s.links && e != d && e != c ==> s'.links[e].gets == s.links[e].gets
    requires c in s.links ==> |s'.links[c].gets| <= |s.links[c].gets| + 1
    requires s'.ctxs[c].callbacks == Waiting(s.ctxs[c].callbacks, name, OnBehalf(d))
    requires forall n :: n in s.ctxs && n != c ==> s'.ctxs[n] == s.ctxs[n]
    ensures Duties(tr, s') < Duties(tr, s)
  {
    hide Total, Owed;
    var f: Id -> nat, g: Id -> nat := (e: Id) => Asking(tr, s, e), (e: Id) => Asking(tr, s', e);
    AskingLess(|s.links[d].gets|, tr.depth(d));
    assert f(d) - g(d) == 2 * tr.depth(d);
    if c in s.links {
      AskingMore(|s.links[c].gets|, |s'.links[c].gets|, tr.depth(c));
      assert g(c) <= f(c) + 2 * tr.depth(c);
      TotalChangeTwo(s.links.Keys, d, c, f, g);
    } else {
      TotalChange(s.links.Keys, d, f, g);
    }
    WaitOwes(s, s', c, name, OnBehalf(d));
    forall n | n in s.ctxs && n != c ensures Owed(s', n) == Owed(s, n) {
      SameOwed(s, s', n);
    }
    TotalChange(s.ctxs.Keys, c, (n: Id) => Owed(s, n), (n: Id) => Owed(s', n));
  }

  lemma HandleGetUsesUp(tr: Tree, build: Builder, s: Sys, d: Id)
    requires IsTree(tr) && Inv(tr, s) && Enabled(tr, s, HandleGet(d))
    ensures Duties(tr, Apply(tr, build, s, HandleGet(d))) < Duties(tr, s)
  {
    hide Pending, CtxOk, LinkOk, Respond, SendCached, Duties;
    var c, name := tr.up(d), s.links[d].gets[0];
    var s' := Apply(tr, build, s, HandleGet(d));
    assert tr.depth(c) < tr.depth(d);
    if c == MASTER || name in s.ctxs[c].cache {
      AnswerUsesUp(tr, s, s', d);
    } else {
      PassingOnUsesUp(tr, s, s', d, c, name);
    }
  }

  /** Local callbacks send nothing. */
  lemma {:induction false} LocalsSendNothing(s: Sys, n: Id, name: Name, cbs: seq<Callback>)
    requires n in s.ctxs && name in s.ctxs[n].cache && forall k :: 0 <= k < |cbs| ==> cbs[k].Local?
    ensures RunAll(s, n, name, cbs).links == s.links
    decreases |cbs|
  {
    if cbs != [] {
      LocalsSendNothing(RunOne(s, n, name, cbs[0]), n, name, cbs[1..]);
    }
  }

  lemma LoadedDuties(tr: Tree, s: Sys, s1: Sys, s': Sys, d: Id, name: Name)
    requires Loaded(s, s1, s', d) && name == s.links[d].out.loads[s.links[d].arrived].name
    ensures Duties(tr, s') + BehalfOf(s.ctxs[d], name) == Duties(tr, s)
  {
    hide Total, Owed, Extends, Waits;
    forall e | e in s.links ensures Asking(tr, s', e) == Asking(tr, s, e) {
      assert e in s1.links;
    }
    TotalSame(s.links.Keys, (e: Id) => Asking(tr, s, e), (e: Id) => Asking(tr, s', e));
    ReleaseOwes(s, s', d, name);
    forall n | n in s.ctxs && n != d ensures Owed(s', n) == Owed(s, n) {
      SameOwed(s, s', n);
    }
    TotalChange(s.ctxs.Keys, d, (n: Id) => Owed(s, n), (n: Id) => Owed(s', n));
  }

  lemma ReadingUsesUp(s: Sys, s': Sys, d: Id)
    requires d in s.links && s.links[d].arrived < |s.links[d].out.loads|
    requires d in s'.links && s'.links == s.links[d := s'.links[d]] && s'.links[d].out == s.links[d].out
    requires s'.links[d].arrived == s.links[d].arrived + 1
    ensures Loads(s') < Loads(s)
  {
    hide Total;
    assert s'.links.Keys == s.links.Keys;
    assert Unread(s', d) == Unread(s, d) - 1;
    forall e | e in s.links && e != d ensures Unread(s', e) == Unread(s, e) {
      assert s'.links[e] == s.links[e];
    }
    TotalChange(s.links.Keys, d, (e: Id) => Unread(s, e), (e: Id) => Unread(s', e));
  }

  lemma RefusedDuties(tr: Tree, s: Sys, d: Id)
    requires d in s.links && s.links[d].arrived < |s.links[d].out.loads|
    ensures Duties(tr, Refuse(s, d)) == Duties(tr, s)
  {
    hide Total, Owed;
    var s' := Refuse(s, d);
    TotalSame(s.links.Keys, (e: Id) => Asking(tr, s, e), (e: Id) => Asking(tr, s', e));
    assert s'.links.Keys == s.links.Keys;
    forall n | n in s.ctxs ensures Owed(s', n) == Owed(s, n) {
      SameOwed(s, s', n);
    }
    TotalSame(s.ctxs.Keys, (n: Id) => Owed(s, n), (n: Id) => Owed(s', n));
  }

  /** A module that arrives: the callbacks it releases are duties done, and without any there is one module less. */
  lemma HandleLoadUsesUp(tr: Tree, build: Builder, s: Sys, d: Id)
    requires IsTree(tr) && Inv(tr, s) && Enabled(tr, s, HandleLoad(d))
    ensures var s' := Apply(tr, build, s, HandleLoad(d));
            Duties(tr, s') < Duties(tr, s) || (Duties(tr, s') == Duties(tr, s) && Loads(s') < Loads(s))
  {
    hide Pending, CtxOk, LinkOk, Duties, Loads, Loaded, RunAll;
    if !Arrived(s, d).fits {
      ReadingUsesUp(s, Refuse(s, d), d);
      RefusedDuties(tr, s, d);
      return;
    }
    var s1, s', name := Store(s, d), Apply(tr, build, s, HandleLoad(d)), Arrived(s, d).name;
    HandleLoadDoes(tr, build, s, d);
    LoadedDuties(tr, s, s1, s', d, name);
    BehalfNone(Released(s, d));
    if BehalfOf(s.ctxs[d], name) == 0 {
      assert BehalfOf(s.ctxs[d], name) == Behalf(Released(s, d));
      LocalsSendNothing(s1, d, name, Released(s, d));
      ReadingUsesUp(s, s', d);
    }
  }

  predicate Delivery(e: Event) { e.HandleGet? || e.HandleLoad? }

  /**
   Between other events there are only finitely many deliveries of requests and modules: each does some of
   the duties, or, doing none, leaves fewer modules to be read.
   */
  lemma DeliveriesUseUp(tr: Tree, build: Builder, events: seq<Event>, e: Event)
    requires IsTree(tr) && BuilderNames(build) && CanRun(tr, build, START, events) && Delivery(e)
    requires Enabled(tr, Run(tr, build, START, events), e)
    ensures var s := Run(tr, build, START, events); var s' := Apply(tr, build, s, e);
            Duties(tr, s') < Duties(tr, s) || (Duties(tr, s') == Duties(tr, s) && Loads(s') < Loads(s))
  {
    hide Run, CanRun, Duties, Loads, Apply, Enabled, CtxOk, LinkOk;
    NewIsOk();
    RunKeeps(tr, build, START, events);
    if e.HandleGet? {
      HandleGetUsesUp(tr, build, Run(tr, build, START, events), e.d);
    } else {
      HandleLoadUsesUp(tr, build, Run(tr, build, START, events), e.d);
    }
  }

  lemma {:induction false} RunSnoc(tr: Tree, build: Builder, s: Sys, events: seq<Event>, e: Event)
    requires CanRun(tr, build, s, events) && Enabled(tr, Run(tr, build, s, events), e)
    ensures CanRun(tr, build, s, events + [e])
    ensures Run(tr, build, s, events + [e]) == Apply(tr, build, Run(tr, build, s, events), e)
    decreases |events|
  {
    hide Enabled, Apply;
    if events == [] {
      assert events + [e] == [e];
      assert CanRun(tr, build, Apply(tr, build, s, e), []);
    } else {
      RunSnoc(tr, build, Apply(tr, build, s, events[0]), events[1..], e);
      assert (events + [e])[1..] == events[1..] + [e];
    }
  }

  lemma NotQuietDelivers(tr: Tree, s: Sys) returns (e: Event)
    requires IsTree(tr) && Inv(tr, s) && !Quiet(s)
    ensures Delivery(e) && Enabled(tr, s, e)
  {
    var d :| d in s.links && (s.links[d].gets != [] || s.links[d].arrived != |s.links[d].out.loads|);
    e := if s.links[d].gets != [] then HandleGet(d) else HandleLoad(d);
  }

  /** So every run can go quiet, and in the end every run does that has deliveries only. */
  lemma {:induction false} DeliveriesSettle(tr: Tree, build: Builder, events: seq<Event>) returns (more: seq<Event>)
    requires IsTree(tr) && BuilderNames(build) && CanRun(tr, build, START, events)
    ensures (forall e :: e in more ==> Delivery(e)) && CanRun(tr, build, START, events + more)
    ensures Quiet(Run(tr, build, START, events + more))
    decreases Duties(tr, Run(tr, build, START, events)), Loads(Run(tr, build, START, events))
  {
    hide Run, CanRun, Duties, Loads, Apply, Enabled, Quiet, CtxOk, LinkOk;
    var s := Run(tr, build, START, events);
    if Quiet(s) {
      more := [];
      assert events + more == events;
    } else {
      NewIsOk();
      RunKeeps(tr, build, START, events);
      var e := NotQuietDelivers(tr, s);
      DeliveriesUseUp(tr, build, events, e);
      RunSnoc(tr, build, START, events, e);
      var rest := DeliveriesSettle(tr, build, events + [e]);
      more := [e] + rest;
      assert events + more == events + [e] + rest;
    }
  }
}
