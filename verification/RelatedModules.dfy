/** `ModuleFinder.find_related`: the modules that a module imports, directly or not. */
module RelatedModules {
  import opened Seqs

  type Name = string

  /** What `find_related_imports` gives for each module. */
  type Imports = Name -> set<Name>

  /** Each module of the path imports the next. */
  predicate Chain(imports: Imports, path: seq<Name>)
  {
    forall k :: 0 <= k < |path| - 1 ==> path[k + 1] in imports(path[k])
  }

  /** `a` imports `b`, in one step or several. */
  ghost predicate Needs(imports: Imports, a: Name, b: Name)
  {
    exists path :: |path| >= 2 && Chain(imports, path) && path[0] == a && path[|path| - 1] == b
  }

  lemma NeedsStep(imports: Imports, a: Name, b: Name, c: Name)
    requires (a == b || Needs(imports, a, b)) && c in imports(b)
    ensures Needs(imports, a, c)
  {
    var path := [a];
    if a != b {
      path :| |path| >= 2 && Chain(imports, path) && path[0] == a && path[|path| - 1] == b;
    }
    var longer := path + [c];
    forall k | 0 <= k < |longer| - 1 ensures longer[k + 1] in imports(longer[k]) {
      if k < |path| - 1 {
        assert path[k + 1] in imports(path[k]);
      }
    }
    assert Chain(imports, longer) && longer[0] == a && longer[|longer| - 1] == c;
  }

  /** A set that holds all that `start` and its elements import holds all that `start` needs. */
  lemma {:induction false} ClosedHoldsNeeds(imports: Imports, start: Name, found: set<Name>, path: seq<Name>)
    requires forall n :: n == start || n in found ==> imports(n) <= found
    requires |path| >= 2 && Chain(imports, path) && path[0] == start
    ensures path[|path| - 1] in found
    decreases |path|
  {
    var last := |path| - 1;
    assert path[last - 1 + 1] in imports(path[last - 1]);
    if last > 1 {
      var init := path[..last];
      forall k | 0 <= k < |init| - 1 ensures init[k + 1] in imports(init[k]) {
        assert path[k + 1] in imports(path[k]);
      }
      ClosedHoldsNeeds(imports, start, found, init);
    }
  }

  function IsF(n: Name): Name -> bool { (x: Name) => x == n }

  /** How often `n` has been scanned or is due to be. */
  ghost function Visits(scans: seq<Name>, stack: seq<Name>, n: Name): nat
  {
    Count(scans, IsF(n)) + Count(stack, IsF(n))
  }

  ghost predicate VisitsOk(scans: seq<Name>, stack: seq<Name>, found: set<Name>, start: Name)
  {
    forall n :: Visits(scans, stack, n) == (if n in found then 1 else 0) + (if n == start then 1 else 0)
  }

  lemma {:induction false} CountDistinct(s: seq<Name>, n: Name)
    requires Distinct(s)
    ensures Count(s, IsF(n)) == if n in s then 1 else 0
  {
    if s != [] {
      CountDistinct(s[..|s| - 1], n);
      assert s == s[..|s| - 1] + [s[|s| - 1]];
    }
  }

  /** The elements of a set, in an order of its own. */
  method Listed(s: set<Name>) returns (order: seq<Name>)
    ensures Distinct(order) && forall n :: n in order <==> n in s
  {
    var left := s;
    order := [];
    while left != {}
      invariant left <= s && Distinct(order) && forall n :: n in order <==> n in s - left
      decreases |left|
    {
      var n :| n in left;
      DistinctConcat(order, [n]);
      order := order + [n];
      left := left - {n};
    }
  }

  lemma ScanKeepsVisits(imports: Imports, scans: seq<Name>, stack: seq<Name>, found: set<Name>, start: Name,
                        added: seq<Name>)
    requires VisitsOk(scans, stack, found, start) && stack != []
    requires if scans == [] then stack == [start] else start in scans
    requires Distinct(added) && forall n :: n in added <==> n in imports(stack[0]) && n !in found && n !in stack[1..]
    ensures VisitsOk(scans + [stack[0]], stack[1..] + added, found + imports(stack[0]), start)
  {
    hide Count;
    var name, rest := stack[0], stack[1..];
    forall n ensures Visits(scans + [name], rest + added, n)
        == (if n in found + imports(name) then 1 else 0) + (if n == start then 1 else 0) {
      assert Visits(scans, stack, n) == (if n in found then 1 else 0) + (if n == start then 1 else 0);
      assert stack == [name] + rest;
      CountSnoc(scans, name, IsF(n));
      CountConcat([name], rest, IsF(n));
      CountSnoc([], name, IsF(n));
      assert [] + [name] == [name];
      CountNone([], IsF(n));
      CountConcat(rest, added, IsF(n));
      CountDistinct(added, n);
      CountNone(rest, IsF(n));
      CountNone(scans + [name], IsF(n));
    }
  }

  ghost predicate Progress(imports: Imports, start: Name, universe: set<Name>,
      stack: seq<Name>, found: set<Name>, scans: seq<Name>)
  {
    && found <= universe && (forall n :: n in stack || n in scans ==> n == start || n in found)
    && (forall n :: n in found ==> Needs(imports, start, n))
    && (forall n :: n in scans ==> imports(n) <= found)
    && (if scans == [] then stack == [start] else start in scans)
    && VisitsOk(scans, stack, found, start)
  }

  ghost predicate Universal(imports: Imports, start: Name, universe: set<Name>)
  {
    start in universe && forall n :: n in universe ==> imports(n) <= universe
  }

  /** The modules that scanning the first of the stack adds to it. */
  ghost predicate Adds(imports: Imports, stack: seq<Name>, found: set<Name>, added: seq<Name>)
    requires stack != []
  {
    Distinct(added) && forall n :: n in added <==> n in imports(stack[0]) && n !in found && n !in stack[1..]
  }

  lemma ScanKeeps(imports: Imports, start: Name, universe: set<Name>,
      stack: seq<Name>, found: set<Name>, scans: seq<Name>, added: seq<Name>)
    requires Universal(imports, start, universe) && Progress(imports, start, universe, stack, found, scans)
    requires stack != [] && Adds(imports, stack, found, added)
    ensures Progress(imports, start, universe, stack[1..] + added, found + imports(stack[0]), scans + [stack[0]])
  {
    hide Count, Needs, Visits;
    var name := stack[0];
    assert name in stack;
    ScanKeepsVisits(imports, scans, stack, found, start, added);
    forall n | n in imports(name) ensures Needs(imports, start, n) {
      NeedsStep(imports, start, name, n);
    }
    forall n | n in stack[1..] ensures n in stack {
    }
  }

  lemma ScanUsesUp(imports: Imports, start: Name, universe: set<Name>,
      stack: seq<Name>, found: set<Name>, scans: seq<Name>, added: seq<Name>)
    requires Universal(imports, start, universe) && Progress(imports, start, universe, stack, found, scans)
    requires stack != [] && Adds(imports, stack, found, added)
    ensures |universe - (found + imports(stack[0]))| + |stack[1..] + added| < |universe - found| + |stack|
  {
    hide Count, Needs, Visits;
    assert stack[0] in stack;
    var after, more := universe - (found + imports(stack[0])), set n | n in added;
    assert after + more <= universe - found && after * more == {};
    SizeOfSubset(after + more, universe - found);
    DistinctSize(added);
  }

  lemma {:induction false} SizeOfSubset(a: set<Name>, b: set<Name>)
    requires a <= b
    ensures |a| <= |b|
  {
    assert b == a + (b - a);
  }

  lemma {:induction false} DistinctSize(s: seq<Name>)
    requires Distinct(s)
    ensures |set n | n in s| == |s|
  {
    if s != [] {
      var init, last := s[..|s| - 1], s[|s| - 1];
      DistinctSize(init);
      assert s == init + [last];
      assert (set n | n in s) == (set n | n in init) + {last};
    }
  }

  /** Once the stack is empty, what was found is what is needed. */
  lemma AllScanned(imports: Imports, start: Name, universe: set<Name>, found: set<Name>, scans: seq<Name>, n: Name)
    requires Progress(imports, start, universe, [], found, scans)
    ensures n in found <==> Needs(imports, start, n)
    ensures Count(scans, IsF(n)) == (if Needs(imports, start, n) then 1 else 0) + (if n == start then 1 else 0)
  {
    CountNone([], IsF(n));
    assert Visits(scans, [], n) == (if n in found then 1 else 0) + (if n == start then 1 else 0);
    forall x | x == start || x in found ensures imports(x) <= found {
      assert Visits(scans, [], x) == (if x in found then 1 else 0) + (if x == start then 1 else 0);
      CountNone([], IsF(x));
      CountNone(scans, IsF(x));
    }
    if Needs(imports, start, n) {
      var path :| |path| >= 2 && Chain(imports, path) && path[0] == start && path[|path| - 1] == n;
      ClosedHoldsNeeds(imports, start, found, path);
    }
  }

  /**
   `universe` is any finite set of modules closed under importing. `scans` lists the modules that were
   scanned: each one needed, once, and the start module once more, so twice if it needs itself.
   */
  method FindRelated(imports: Imports, start: Name, ghost universe: set<Name>)
    returns (related: set<Name>, ghost scans: seq<Name>)
    requires start in universe && forall n :: n in universe ==> imports(n) <= universe
    ensures forall n :: n in related <==> Needs(imports, start, n) && n != start
    ensures forall n ::
      Count(scans, IsF(n)) == (if Needs(imports, start, n) then 1 else 0) + (if n == start then 1 else 0)
  {
    hide Count, Needs, VisitsOk;
    var stack := [start];
    var found: set<Name> := {};
    scans := [];
    FirstVisit(start);
    while stack != []
      invariant Progress(imports, start, universe, stack, found, scans)
      decreases |universe - found| + |stack|
    {
      var names, rest := imports(stack[0]), stack[1..];
      var added := Listed(names - found - (set n | n in rest));
      ScanKeeps(imports, start, universe, stack, found, scans, added);
      ScanUsesUp(imports, start, universe, stack, found, scans, added);
      scans := scans + [stack[0]];
      stack := rest + added;
      found := found + names;
    }
    forall n
      ensures n in found <==> Needs(imports, start, n)
      ensures Count(scans, IsF(n)) == (if Needs(imports, start, n) then 1 else 0) + (if n == start then 1 else 0)
    {
      AllScanned(imports, start, universe, found, scans, n);
    }
    related := found - {start};
  }

  lemma FirstVisit(start: Name)
    ensures VisitsOk([], [start], {}, start)
  {
    forall n ensures Visits([], [start], n) == if n == start then 1 else 0 {
      CountSnoc([], start, IsF(n));
      assert [] + [start] == [start];
    }
  }
}
