/**
 Serving modules: the importer of each context asks its parent for a module at most once, a parent
 that is not the master asks its own parent on the child's behalf, and every parent remembers what it
 has already sent to a child.
 */
module Modules {
  import opened Routes
  import opened Seqs

  type Name = string

  const MITOGEN: Name := "mitogen"
  const CORE: Name := "mitogen.core"

  /**
   A LOAD_MODULE tuple; `present` is false for the negative answer. Where its message does not fit, being larger
   than `max_message_size`, routing refuses it and a dead message goes in its place.
   */
  datatype Module = Module(name: Name, present: bool, related: seq<Name>, fits: bool)

  /** What waits for a module: a local import, or a child that asked for it. */
  datatype Callback = Local(id: nat) | OnBehalf(child: Id)

  class Importer {
    var cache: map<Name, Module>
    var callbacks: map<Name, seq<Callback>>

    constructor ()
      ensures cache == map[CORE := Module(CORE, true, [], true)] && callbacks == map[]
    {
      cache := map[CORE := Module(CORE, true, [], true)];
      callbacks := map[];
    }

    /** `asks`: GET_MODULE is sent to the parent; `runs`: the callback is invoked at once. */
    method RequestModule(name: Name, callback: Callback) returns (asks: bool, runs: bool)
      modifies this`callbacks
      ensures runs <==> name in cache
      ensures asks <==> name !in cache && name !in old(callbacks)
      ensures callbacks ==
        if name in cache then old(callbacks) else Waiting(old(callbacks), name, callback)
    {
      asks, runs := false, name in cache;
      if !runs {
        if name in callbacks {
          callbacks := callbacks[name := callbacks[name] + [callback]];
        } else {
          callbacks := callbacks[name := [callback]];
          assert [] + [callback] == [callback];
          asks := true;
        }
      }
    }

    /** Stores a module and returns the callbacks to invoke, oldest first; a dead message is ignored. */
    method OnLoadModule(m: Module) returns (run: seq<Callback>)
      modifies this
      ensures cache == if m.fits then old(cache)[m.name := m] else old(cache)
      ensures run == (if m.fits && m.name in old(callbacks) then old(callbacks)[m.name] else [])
      ensures callbacks == if m.fits then old(callbacks) - {m.name} else old(callbacks)
    {
      if !m.fits {
        return [];
      }
      cache := cache[m.name := m];
      run := if m.name in callbacks then callbacks[m.name] else [];
      callbacks := callbacks - {m.name};
    }
  }

  function Waiting(callbacks: map<Name, seq<Callback>>, name: Name, callback: Callback): map<Name, seq<Callback>>
  {
    callbacks[name := (if name in callbacks then callbacks[name] else []) + [callback]]
  }

  /** A child's stream: the names in `sent_modules`, and the LOAD_MODULEs written to it. */
  datatype Outgoing = Outgoing(sent: set<Name>, loads: seq<Module>)

  function SendOne(o: Outgoing, m: Module): Outgoing
  {
    if m.name in o.sent then o else Outgoing(o.sent + {m.name}, o.loads + [m])
  }

  /** Those of the modules that are cached are sent, in order, unless sent before. */
  function SendCached(cache: map<Name, Module>, o: Outgoing, names: seq<Name>): Outgoing
    decreases |names|
  {
    if names == [] then o
    else
      SendCached(cache, if names[0] in cache then SendOne(o, cache[names[0]]) else o, names[1..])
  }

  /** Only the part before the first dot; the whole name if there is none. */
  function TopLevel(name: Name): (top: Name)
    ensures top <= name && '.' !in top && (|top| < |name| ==> name[|top|] == '.')
  {
    if name == "" || name[0] == '.' then "" else [name[0]] + TopLevel(name[1..])
  }

  /** The master's tuples; None where building one raises an exception. */
  type Builder = Name -> Option<Module>

  /** The loop over related modules in the master; None if building one of them raised. */
  function SendRelated(build: Builder, name: Name, o: Outgoing, related: seq<Name>): (Outgoing, bool)
    decreases |related|
  {
    if related == [] then (o, true)
    else
      var r := related[0];
      if (TopLevel(r) != name && TopLevel(r) !in o.sent) || r in o.sent then
        SendRelated(build, name, o, related[1..])
      else if build(r).None? then (o, false)
      else SendRelated(build, name, SendNamed(o, r, build(r).value), related[1..])
  }

  function SendNamed(o: Outgoing, name: Name, m: Module): Outgoing
  {
    Outgoing(o.sent + {name}, o.loads + [m])
  }

  /** `ModuleResponder._send_module_and_related`: any exception ends in a negative answer. */
  function Respond(build: Builder, o: Outgoing, name: Name): Outgoing
  {
    if name in o.sent then o
    else
      var negative := Module(name, false, [], true);
      var tup := build(name);
      if tup.None? then o.(loads := o.loads + [negative])
      else
        var (o', ok) := SendRelated(build, name, o, tup.value.related);
        if !ok then o'.(loads := o'.loads + [negative])
        else if name in o'.sent then o'
        else SendNamed(o', name, tup.value)
  }

  /** The parent's end of a stream to a child, as far as modules go. */
  class ModuleStream {
    var sentModules: set<Name>
    var loads: seq<Module>

    constructor ()
      ensures State() == Outgoing({MITOGEN, CORE}, [])
    {
      sentModules, loads := {MITOGEN, CORE}, [];
    }

    function State(): Outgoing
      reads this
    {
      Outgoing(sentModules, loads)
    }
  }

  class ModuleForwarder {
    const importer: Importer

    constructor (importer: Importer)
      ensures this.importer == importer
    {
      this.importer := importer;
    }

    method SendOneModule(stream: ModuleStream, m: Module)
      modifies stream
      ensures stream.State() == SendOne(old(stream.State()), m)
    {
      if m.name !in stream.sentModules {
        stream.sentModules := stream.sentModules + {m.name};
        stream.loads := stream.loads + [m];
      }
    }

    method SendModuleAndRelated(stream: ModuleStream, name: Name)
      requires name in importer.cache
      modifies stream
      ensures stream.State() ==
        SendCached(importer.cache, old(stream.State()), importer.cache[name].related + [name])
    {
      var m := importer.cache[name];
      var i := 0;
      assert (m.related + [name])[0..] == m.related + [name];
      while i < |m.related|
        invariant 0 <= i <= |m.related|
        invariant SendCached(importer.cache, old(stream.State()), m.related + [name])
          == SendCached(importer.cache, stream.State(), (m.related + [name])[i..])
      {
        assert (m.related + [name])[i..][0] == m.related[i];
        assert (m.related + [name])[i..][1..] == (m.related + [name])[i + 1..];
        if m.related[i] in importer.cache {
          SendOneModule(stream, importer.cache[m.related[i]]);
        }
        i := i + 1;
      }
      assert (m.related + [name])[i..] == [name] && [name][1..] == [];
      SendOneModule(stream, m);
    }
  }

  class ModuleResponder {
    const build: Builder

    constructor (build: Builder)
      ensures this.build == build
    {
      this.build := build;
    }

    method SendModuleAndRelated(stream: ModuleStream, name: Name)
      modifies stream
      ensures stream.State() == Respond(build, old(stream.State()), name)
    {
      if name in stream.sentModules {
        return;
      }
      var tup := build(name);
      var failed := tup.None?;
      if !failed {
        var related, i := tup.value.related, 0;
        assert related[0..] == related;
        while i < |related| && !failed
          invariant 0 <= i <= |related|
          invariant SendRelated(build, name, old(stream.State()), related) ==
            if failed then (stream.State(), false) else SendRelated(build, name, stream.State(), related[i..])
          decreases |related| - i, !failed
        {
          var r := related[i];
          assert related[i..][0] == r && related[i..][1..] == related[i + 1..];
          if (TopLevel(r) == name || TopLevel(r) in stream.sentModules) && r !in stream.sentModules {
            var m := build(r);
            if m.Some? {
              stream.loads := stream.loads + [m.value];
              stream.sentModules := stream.sentModules + {r};
            } else {
              failed := true;
            }
          }
          i := if failed then i else i + 1;
        }
      }
      if failed {
        stream.loads := stream.loads + [Module(name, false, [], true)];
      } else if name !in stream.sentModules {
        stream.loads := stream.loads + [tup.value];
        stream.sentModules := stream.sentModules + {name};
      }
    }
  }

  // ---------------------------------------------------------------- what sending guarantees

  /** A LOAD_MODULE for `name` was written after `o`. */
  predicate Added(o: Outgoing, o': Outgoing, name: Name)
  {
    exists i :: |o.loads| <= i < |o'.loads| && o'.loads[i].name == name
  }

  /** Tuples carry the name they are stored or built under. */
  ghost predicate Named(cache: map<Name, Module>)
  {
    forall n :: n in cache ==> cache[n].name == n
  }

  ghost predicate BuilderNames(build: Builder)
  {
    forall n :: build(n).Some? ==> build(n).value.name == n
  }

  /** Nothing sent is forgotten, and what became marked as sent was sent. */
  ghost predicate Extends(o: Outgoing, o': Outgoing)
  {
    && o.sent <= o'.sent && o.loads <= o'.loads
    && (forall n :: n in o'.sent && n !in o.sent ==> Added(o, o', n))
  }

  lemma ExtendsTransitive(a: Outgoing, b: Outgoing, c: Outgoing)
    requires Extends(a, b) && Extends(b, c)
    ensures Extends(a, c)
  {
    forall n | n in c.sent && n !in a.sent ensures Added(a, c, n) {
      if n in b.sent {
        AddedStays(a, b, c, n);
      }
    }
  }

  lemma AddedStays(a: Outgoing, b: Outgoing, c: Outgoing, n: Name)
    requires Added(a, b, n) && b.loads <= c.loads
    ensures Added(a, c, n)
  {
    var i :| |a.loads| <= i < |b.loads| && b.loads[i].name == n;
    assert c.loads[i].name == n;
  }

  lemma SendingExtends(o: Outgoing, m: Module)
    ensures Extends(o, SendOne(o, m)) && m.name in SendOne(o, m).sent
    ensures Extends(o, o.(loads := o.loads + [m])) && Added(o, o.(loads := o.loads + [m]), m.name)
  {
    assert o.(loads := o.loads + [m]).loads[|o.loads|].name == m.name;
    if m.name !in o.sent {
      assert SendOne(o, m).loads[|o.loads|].name == m.name;
    }
  }

  lemma {:induction false} SendCachedExtends(cache: map<Name, Module>, o: Outgoing, names: seq<Name>)
    requires Named(cache)
    ensures Extends(o, SendCached(cache, o, names))
    ensures forall n :: n in names && n in cache ==> n in SendCached(cache, o, names).sent
    decreases |names|
  {
    if names != [] {
      var o' := if names[0] in cache then SendOne(o, cache[names[0]]) else o;
      if names[0] in cache {
        SendingExtends(o, cache[names[0]]);
      }
      SendCachedExtends(cache, o', names[1..]);
      ExtendsTransitive(o, o', SendCached(cache, o', names[1..]));
    }
  }

  lemma {:induction false} SendRelatedExtends(build: Builder, name: Name, o: Outgoing, related: seq<Name>)
    requires BuilderNames(build)
    ensures Extends(o, SendRelated(build, name, o, related).0)
    decreases |related|
  {
    if related != [] {
      var r := related[0];
      if (TopLevel(r) != name && TopLevel(r) !in o.sent) || r in o.sent {
        SendRelatedExtends(build, name, o, related[1..]);
      } else if build(r).Some? {
        var o' := SendNamed(o, r, build(r).value);
        assert o' == SendOne(o, build(r).value);
        SendingExtends(o, build(r).value);
        SendRelatedExtends(build, name, o', related[1..]);
        ExtendsTransitive(o, o', SendRelated(build, name, o', related[1..]).0);
      }
    }
  }

  /**
   The master answers every request for a module it has not sent to that child, with a positive or a
   negative LOAD_MODULE of that name, whatever fails on the way; and ignores the others.
   */
  lemma MasterAnswers(build: Builder, o: Outgoing, name: Name)
    requires BuilderNames(build)
    ensures var o' := Respond(build, o, name);
            && Extends(o, o')
            && (if name in o.sent then o' == o else Added(o, o', name))
  {
    var o' := Respond(build, o, name);
    var negative := Module(name, false, [], true);
    if name !in o.sent {
      if build(name).None? {
        SendingExtends(o, negative);
      } else {
        var (o1, ok) := SendRelated(build, name, o, build(name).value.related);
        SendRelatedExtends(build, name, o, build(name).value.related);
        if !ok {
          SendingExtends(o1, negative);
          ExtendsTransitive(o, o1, o');
          assert o'.loads[|o1.loads|].name == name;
        } else if name !in o1.sent {
          SendingExtends(o1, build(name).value);
          assert o' == SendOne(o1, build(name).value);
          ExtendsTransitive(o, o1, o');
        }
      }
    }
  }

  // ---------------------------------------------------------------- exactly what is sent

  /** What `o'` has beyond `o` are the tuples `source` has for `names`, in that order. */
  ghost predicate Wrote(source: Builder, o: Outgoing, o': Outgoing, names: seq<Name>)
  {
    && o'.sent == o.sent + (set n | n in names) && (forall n :: n in names ==> n !in o.sent) && Distinct(names)
    && o.loads <= o'.loads && |o'.loads| == |o.loads| + |names|
    && (forall i :: 0 <= i < |names| ==> source(names[i]) == Some(o'.loads[|o.loads| + i]))
  }

  /** The names that are in `wanted`, each once and in order. */
  ghost function Kept(names: seq<Name>, wanted: set<Name>): seq<Name>
  {
    if names == [] then []
    else if names[0] in wanted then [names[0]] + Kept(names[1..], wanted - {names[0]})
    else Kept(names[1..], wanted)
  }

  /** The names up to the first for which building raises. */
  ghost function Buildable(build: Builder, names: seq<Name>): (built: seq<Name>)
    ensures built <= names && (|built| < |names| ==> build(names[|built|]).None?)
  {
    if names == [] || build(names[0]).None? then [] else [names[0]] + Buildable(build, names[1..])
  }

  lemma WroteOne(source: Builder, o: Outgoing, m: Module)
    requires source(m.name) == Some(m) && m.name !in o.sent
    ensures Wrote(source, o, SendNamed(o, m.name, m), [m.name])
  {
  }

  lemma WroteBoth(source: Builder, a: Outgoing, b: Outgoing, c: Outgoing, first: seq<Name>, second: seq<Name>)
    requires Wrote(source, a, b, first) && Wrote(source, b, c, second)
    ensures Wrote(source, a, c, first + second)
  {
    DistinctConcat(first, second);
    forall i | 0 <= i < |first| ensures source(first[i]) == Some(c.loads[|a.loads| + i]) {
      assert b.loads[|a.loads| + i] == c.loads[|a.loads| + i];
    }
  }

  function FromCache(cache: map<Name, Module>): Builder
  {
    (n: Name) => if n in cache then Some(cache[n]) else None
  }

  /** A forwarder passes on what it has cached, unchanged and in order, each module once. */
  lemma {:induction false} SendCachedWrites(cache: map<Name, Module>, o: Outgoing, names: seq<Name>)
    requires Named(cache)
    ensures Wrote(FromCache(cache), o, SendCached(cache, o, names), Kept(names, cache.Keys - o.sent))
    decreases |names|
  {
    if names != [] {
      hide Wrote;
      var x, rest := names[0], names[1..];
      if x in cache && x !in o.sent {
        var o' := SendNamed(o, x, cache[x]);
        SendCachedWrites(cache, o', rest);
        WroteOne(FromCache(cache), o, cache[x]);
        assert cache.Keys - o'.sent == cache.Keys - o.sent - {x};
        WroteBoth(FromCache(cache), o, o', SendCached(cache, o', rest), [x], Kept(rest, cache.Keys - o'.sent));
      } else {
        SendCachedWrites(cache, o, rest);
      }
    }
  }

  /** Related modules to send along: those in a package that is sent before or now, and not sent themselves. */
  ghost function GoAlong(o: Outgoing, name: Name, related: seq<Name>): set<Name>
  {
    set r | r in related && r !in o.sent && (TopLevel(r) == name || TopLevel(r) in o.sent)
  }

  lemma {:induction false} TopLevelTwice(name: Name)
    ensures TopLevel(TopLevel(name)) == TopLevel(name)
  {
    if name != "" && name[0] != '.' {
      TopLevelTwice(name[1..]);
      assert ([name[0]] + TopLevel(name[1..]))[1..] == TopLevel(name[1..]);
    }
  }

  /** Nothing that is sent on the way makes another related module go along. */
  lemma GoAlongStep(o: Outgoing, name: Name, related: seq<Name>, m: Module)
    requires related != []
    ensures var r := related[0]; var all := GoAlong(o, name, related);
            && (r in all <==> r !in o.sent && (TopLevel(r) == name || TopLevel(r) in o.sent))
            && GoAlong(if r in all then SendNamed(o, r, m) else o, name, related[1..]) == all - {r}
  {
    var r := related[0];
    assert related == [r] + related[1..];
    forall x | x in related ensures TopLevel(x) == r ==> TopLevel(r) == r {
      TopLevelTwice(x);
    }
  }

  lemma {:induction false} SendRelatedWrites(build: Builder, name: Name, o: Outgoing, related: seq<Name>)
    requires BuilderNames(build)
    ensures var (o', ok) := SendRelated(build, name, o, related);
            var kept := Kept(related, GoAlong(o, name, related));
            Wrote(build, o, o', Buildable(build, kept)) && (ok <==> Buildable(build, kept) == kept)
    decreases |related|
  {
    if related != [] {
      hide Wrote, GoAlong;
      var r, rest, all := related[0], related[1..], GoAlong(o, name, related);
      if r !in all {
        GoAlongStep(o, name, related, Module(r, true, [], true));
        assert all - {r} == all;
        SendRelatedWrites(build, name, o, rest);
      } else if build(r).None? {
        GoAlongStep(o, name, related, Module(r, true, [], true));
        WroteNothing(build, o);
      } else {
        var o1 := SendNamed(o, r, build(r).value);
        GoAlongStep(o, name, related, build(r).value);
        WroteOne(build, o, build(r).value);
        SendRelatedWrites(build, name, o1, rest);
        var kept := Kept(rest, all - {r});
        assert ([r] + kept)[1..] == kept;
        WroteBoth(build, o, o1, SendRelated(build, name, o1, rest).0, [r], Buildable(build, kept));
      }
    }
  }

  lemma WroteNothing(source: Builder, o: Outgoing)
    ensures Wrote(source, o, o, [])
  {
  }

  /**
   Exactly what the master sends: the tuples built for the related modules that go along, in order, and then
   the requested one, each once and as it was built. If building one of them raises, it is those before it,
   and then a negative answer, which is not recorded as sent.
   */
  lemma MasterSendsWhatItBuilt(build: Builder, o: Outgoing, name: Name)
    requires BuilderNames(build) && name !in o.sent
    ensures var o' := Respond(build, o, name);
            var related := if build(name).Some? then build(name).value.related else [];
            var along := GoAlong(o, name, related);
            var names := Kept(related, along) + if name in along then [] else [name];
            if build(name).Some? && (forall n :: n in names ==> build(n).Some?) then Wrote(build, o, o', names)
            else
              && o'.loads != [] && o'.loads[|o'.loads| - 1] == Module(name, false, [], true)
              && Wrote(build, o, o'.(loads := o'.loads[..|o'.loads| - 1]), Buildable(build, names))
  {
    hide Wrote;
    var o' := Respond(build, o, name);
    var related := if build(name).Some? then build(name).value.related else [];
    var along := GoAlong(o, name, related);
    if build(name).None? {
      WroteNothing(build, o);
      assert o'.(loads := o'.loads[..|o'.loads| - 1]) == o;
    } else {
      var kept := Kept(related, along);
      var (o1, ok) := SendRelated(build, name, o, related);
      SendRelatedWrites(build, name, o, related);
      KeptAre(related, along);
      AllBuildable(build, kept);
      if !ok {
        BuildableSnoc(build, kept, name);
        assert kept + [] == kept;
        assert o'.(loads := o'.loads[..|o'.loads| - 1]) == o1;
      } else if name in along {
        WroteMarks(build, o, o1, kept);
        assert kept + [] == kept;
      } else {
        WroteMarks(build, o, o1, kept);
        WroteOne(build, o1, build(name).value);
        WroteBoth(build, o, o1, o', kept, [name]);
      }
    }
  }

  lemma WroteMarks(source: Builder, o: Outgoing, o': Outgoing, names: seq<Name>)
    requires Wrote(source, o, o', names)
    ensures o'.sent == o.sent + set n | n in names
  {
  }

  lemma {:induction false} KeptAre(names: seq<Name>, wanted: set<Name>)
    ensures forall n :: n in Kept(names, wanted) <==> n in names && n in wanted
  {
    if names != [] {
      assert names == [names[0]] + names[1..];
      KeptAre(names[1..], if names[0] in wanted then wanted - {names[0]} else wanted);
    }
  }

  lemma {:induction false} AllBuildable(build: Builder, names: seq<Name>)
    ensures Buildable(build, names) == names <==> forall n :: n in names ==> build(n).Some?
  {
    if names != [] && build(names[0]).Some? {
      assert names == [names[0]] + names[1..];
      AllBuildable(build, names[1..]);
    }
  }

  lemma {:induction false} BuildableSnoc(build: Builder, names: seq<Name>, name: Name)
    requires Buildable(build, names) != names
    ensures Buildable(build, names + [name]) == Buildable(build, names)
  {
    if build(names[0]).Some? {
      assert names == [names[0]] + names[1..];
      assert (names + [name])[1..] == names[1..] + [name];
      BuildableSnoc(build, names[1..], name);
    }
  }
}
