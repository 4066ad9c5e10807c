/** Helpers shared by the models, most of them about sequences. */
module Seqs {

  datatype Option<T> = None | Some(value: T)

  function Min(a: nat, b: nat): nat { if a < b then a else b }

  /** The sequence without its element at index `i`. */
  function RemoveAt<T>(s: seq<T>, i: nat): (r: seq<T>)
    requires i < |s|
    ensures |r| == |s| - 1
    ensures forall k :: 0 <= k < i ==> r[k] == s[k]
    ensures forall k :: i <= k < |r| ==> r[k] == s[k + 1]
  {
    s[..i] + s[i + 1..]
  }

  /** The first position of `x`. */
  function IndexOf<T(==)>(s: seq<T>, x: T): (i: nat)
    requires x in s
    ensures i < |s| && s[i] == x
    ensures forall k :: 0 <= k < i ==> s[k] != x
  {
    if s[0] == x then 0 else 1 + IndexOf(s[1..], x)
  }

  /** The concatenation of all the parts, in order. */
  function Flatten<T>(parts: seq<seq<T>>): seq<T>
  {
    if parts == [] then [] else parts[0] + Flatten(parts[1..])
  }

  lemma FlattenFirst<T>(parts: seq<seq<T>>)
    ensures Flatten(parts) == if parts == [] then [] else parts[0] + Flatten(parts[1..])
  {
  }

  lemma {:induction false} FlattenAppend<T>(a: seq<seq<T>>, b: seq<seq<T>>)
    ensures Flatten(a + b) == Flatten(a) + Flatten(b)
  {
    hide Flatten;
    FlattenFirst(a);
    FlattenFirst(a + b);
    if a == [] {
      assert a + b == b && [] + Flatten(b) == Flatten(b);
    } else {
      FlattenAppend(a[1..], b);
      assert (a + b)[0] == a[0] && (a + b)[1..] == a[1..] + b;
    }
  }

  lemma FlattenSnoc<T>(a: seq<seq<T>>, last: seq<T>)
    ensures Flatten(a + [last]) == Flatten(a) + last
  {
    FlattenAppend(a, [last]);
    assert [last][1..] == [];
    assert Flatten([last]) == last;
  }

  predicate Distinct<T(==)>(s: seq<T>)
  {
    forall i, j :: 0 <= i < j < |s| ==> s[i] != s[j]
  }

  lemma DistinctConcat<T>(a: seq<T>, b: seq<T>)
    requires Distinct(a) && Distinct(b) && (forall x :: x in a ==> x !in b)
    ensures Distinct(a + b)
  {
    forall i, j | 0 <= i < j < |a + b| ensures (a + b)[i] != (a + b)[j] {
      if i < |a| <= j {
        assert a[i] in a && b[j - |a|] in b;
      }
    }
  }

  /** How many elements satisfy `f`. */
  ghost function Count<T(!new)>(s: seq<T>, f: T -> bool): nat
  {
    if s == [] then 0 else Count(s[..|s| - 1], f) + (if f(s[|s| - 1]) then 1 else 0)
  }

  lemma CountSnoc<T(!new)>(s: seq<T>, x: T, f: T -> bool)
    ensures Count(s + [x], f) == Count(s, f) + (if f(x) then 1 else 0)
  {
    assert (s + [x])[..|s|] == s;
  }

  lemma {:induction false} CountRemove<T(!new)>(s: seq<T>, i: nat, f: T -> bool)
    requires i < |s|
    ensures Count(s, f) == Count(RemoveAt(s, i), f) + (if f(s[i]) then 1 else 0)
    decreases |s|
  {
    var last := |s| - 1;
    if i == last {
      assert RemoveAt(s, i) == s[..last];
    } else {
      CountRemove(s[..last], i, f);
      assert RemoveAt(s, i) == RemoveAt(s[..last], i) + [s[last]];
      CountSnoc(RemoveAt(s[..last], i), s[last], f);
    }
  }

  lemma {:induction false} CountUpdate<T(!new)>(s: seq<T>, i: nat, x: T, f: T -> bool)
    requires i < |s|
    ensures Count(s[i := x], f) + (if f(s[i]) then 1 else 0) == Count(s, f) + (if f(x) then 1 else 0)
  {
    CountRemove(s, i, f);
    CountRemove(s[i := x], i, f);
    assert RemoveAt(s, i) == RemoveAt(s[i := x], i);
  }

  lemma {:induction false} CountImplies<T(!new)>(s: seq<T>, f: T -> bool, g: T -> bool)
    requires forall x :: x in s && f(x) ==> g(x)
    ensures Count(s, f) <= Count(s, g)
  {
    if s != [] {
      CountImplies(s[..|s| - 1], f, g);
    }
  }

  lemma {:induction false} CountNone<T(!new)>(s: seq<T>, f: T -> bool)
    ensures Count(s, f) == 0 <==> forall x :: x in s ==> !f(x)
  {
    if s != [] {
      CountNone(s[..|s| - 1], f);
      assert s == s[..|s| - 1] + [s[|s| - 1]];
    }
  }

  lemma {:induction false} CountConcat<T(!new)>(a: seq<T>, b: seq<T>, f: T -> bool)
    ensures Count(a + b, f) == Count(a, f) + Count(b, f)
    decreases |b|
  {
    if b == [] {
      assert a + b == a;
    } else {
      var init, last := b[..|b| - 1], b[|b| - 1];
      CountConcat(a, init, f);
      assert a + b == a + init + [last] && b == init + [last];
      CountSnoc(a + init, last, f);
      CountSnoc(init, last, f);
    }
  }

  lemma {:induction false} CountAll<T(!new)>(s: seq<T>, f: T -> bool)
    requires forall x :: x in s ==> f(x)
    ensures Count(s, f) == |s|
  {
    if s != [] {
      CountAll(s[..|s| - 1], f);
    }
  }

  lemma {:induction false} CountEither<T(!new)>(s: seq<T>, f: T -> bool, g: T -> bool, h: T -> bool)
    requires forall x :: x in s ==> (h(x) <==> f(x) || g(x)) && !(f(x) && g(x))
    ensures Count(s, h) == Count(s, f) + Count(s, g)
  {
    if s != [] {
      CountEither(s[..|s| - 1], f, g, h);
    }
  }

  lemma {:induction false} CountAtMost<T(!new)>(s: seq<T>, f: T -> bool, g: T -> bool, h: T -> bool)
    requires forall x :: x in s && h(x) ==> f(x) || g(x)
    ensures Count(s, h) <= Count(s, f) + Count(s, g)
  {
    if s != [] {
      CountAtMost(s[..|s| - 1], f, g, h);
    }
  }

  /** The sum of `f` over a set. */
  ghost function Total<K(!new)>(keys: set<K>, f: K -> nat): nat
    decreases |keys|
  {
    if keys == {} then 0 else var k :| k in keys; f(k) + Total(keys - {k}, f)
  }

  lemma {:induction false} TotalWithout<K(!new)>(keys: set<K>, k: K, f: K -> nat)
    requires k in keys
    ensures Total(keys, f) == f(k) + Total(keys - {k}, f)
    decreases |keys|
  {
    var x :| x in keys && Total(keys, f) == f(x) + Total(keys - {x}, f);
    if x != k {
      TotalWithout(keys - {x}, k, f);
      TotalWithout(keys - {k}, x, f);
      assert keys - {x} - {k} == keys - {k} - {x};
    }
  }

  lemma {:induction false} TotalSame<K(!new)>(keys: set<K>, f: K -> nat, g: K -> nat)
    requires forall k :: k in keys ==> f(k) == g(k)
    ensures Total(keys, f) == Total(keys, g)
    decreases |keys|
  {
    if keys != {} {
      var k :| k in keys;
      TotalWithout(keys, k, f);
      TotalWithout(keys, k, g);
      TotalSame(keys - {k}, f, g);
    }
  }

  /** Two sums that differ at one key. */
  lemma TotalChange<K(!new)>(keys: set<K>, k: K, f: K -> nat, g: K -> nat)
    requires k in keys && forall x :: x in keys && x != k ==> f(x) == g(x)
    ensures Total(keys, g) - Total(keys, f) == g(k) - f(k)
  {
    TotalWithout(keys, k, f);
    TotalWithout(keys, k, g);
    TotalSame(keys - {k}, f, g);
  }

  /** ... or at two. */
  lemma TotalChangeTwo<K(!new)>(keys: set<K>, k: K, l: K, f: K -> nat, g: K -> nat)
    requires k in keys && l in keys && k != l && forall x :: x in keys && x != k && x != l ==> f(x) == g(x)
    ensures Total(keys, g) - Total(keys, f) == g(k) - f(k) + g(l) - f(l)
  {
    TotalWithout(keys, k, f);
    TotalWithout(keys, k, g);
    TotalChange(keys - {k}, l, f, g);
  }

  lemma {:induction false} TimesGrows(a: nat, b: nat, k: nat)
    requires a <= b
    ensures a * k <= b * k
  {
    if a < b {
      TimesGrows(a, b - 1, k);
      assert b * k == (b - 1) * k + k;
    }
  }
}
