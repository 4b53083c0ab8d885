/**
 Sums of money over sequences and finite sets, with the few laws the ledgers need: a sum over
 a sequence depends only on its multiset, and a sum over a set splits along any classification.
 */
module Sums {

  /** The total of `f` over `s`, added from left to right as the source's loops do. */
  function Sum<T>(s: seq<T>, f: T -> real): real {
    if s == [] then 0.0 else Sum(s[..|s| - 1], f) + f(s[|s| - 1])
  }

  lemma {:induction false} SumOfConcat<T>(a: seq<T>, b: seq<T>, f: T -> real)
    ensures Sum(a + b, f) == Sum(a, f) + Sum(b, f)
  {
    if b == [] {
      assert a + b == a;
    } else {
      assert (a + b)[..|a + b| - 1] == a + b[..|b| - 1];
      SumOfConcat(a, b[..|b| - 1], f);
    }
  }

  lemma SumAppend<T>(s: seq<T>, x: T, f: T -> real)
    ensures Sum(s + [x], f) == Sum(s, f) + f(x)
  {
    assert (s + [x])[..|s|] == s;
  }

  lemma {:induction false} SumWithout<T>(s: seq<T>, i: nat, f: T -> real)
    requires i < |s|
    ensures Sum(s, f) == Sum(s[..i] + s[i + 1..], f) + f(s[i])
  {
    assert s == s[..i] + [s[i]] + s[i + 1..];
    SumOfConcat(s[..i] + [s[i]], s[i + 1..], f);
    SumAppend(s[..i], s[i], f);
    SumOfConcat(s[..i], s[i + 1..], f);
  }

  lemma MultisetWithout<T>(s: seq<T>, i: nat)
    requires i < |s|
    ensures multiset(s[..i] + s[i + 1..]) == multiset(s) - multiset{s[i]}
  {
    assert s == s[..i] + ([s[i]] + s[i + 1..]);
    assert multiset(s) == multiset(s[..i]) + (multiset{s[i]} + multiset(s[i + 1..]));
  }

  /** Reordering a list does not change its total. */
  lemma {:induction false} SumPermutation<T>(a: seq<T>, b: seq<T>, f: T -> real)
    requires multiset(a) == multiset(b)
    ensures Sum(a, f) == Sum(b, f)
    decreases |a|
  {
    assert |multiset(a)| == |a| && |multiset(b)| == |b|;
    if a != [] {
      var last := |a| - 1;
      var i := IndexOf(b, a[last]);
      var a', b' := a[..last] + a[last + 1..], b[..i] + b[i + 1..];
      MultisetWithout(a, last);
      MultisetWithout(b, i);
      SumWithout(a, last, f);
      SumWithout(b, i, f);
      SumPermutation(a', b', f);
    }
  }

  lemma IndexOf<T>(s: seq<T>, x: T) returns (i: nat)
    requires x in multiset(s)
    ensures i < |s| && s[i] == x
  {
    i :| 0 <= i < |s| && s[i] == x;
  }

  lemma {:induction false} SumCongruence<T>(s: seq<T>, f: T -> real, g: T -> real)
    requires forall x :: x in s ==> f(x) == g(x)
    ensures Sum(s, f) == Sum(s, g)
  {
    if s != [] {
      assert s[|s| - 1] in s;
      SumCongruence(s[..|s| - 1], f, g);
    }
  }

  lemma {:induction false} SumIsAdditive<T>(s: seq<T>, f: T -> real, g: T -> real, h: T -> real)
    requires forall x :: x in s ==> h(x) == f(x) + g(x)
    ensures Sum(s, h) == Sum(s, f) + Sum(s, g)
  {
    if s != [] {
      assert s[|s| - 1] in s;
      SumIsAdditive(s[..|s| - 1], f, g, h);
    }
  }

  /** The total of `f` over a finite set. */
  ghost function Total<T>(s: set<T>, f: T -> real): real {
    if s == {} then 0.0 else var x :| x in s; Total(s - {x}, f) + f(x)
  }

  lemma {:induction false} TotalWithout<T>(s: set<T>, x: T, f: T -> real)
    requires x in s
    ensures Total(s, f) == Total(s - {x}, f) + f(x)
    decreases |s|
  {
    var y :| y in s && Total(s, f) == Total(s - {y}, f) + f(y);
    if y != x {
      TotalWithout(s - {y}, x, f);
      TotalWithout(s - {x}, y, f);
      assert s - {y} - {x} == s - {x} - {y};
    }
  }

  lemma TotalWith<T>(s: set<T>, x: T, f: T -> real)
    requires x !in s
    ensures Total(s + {x}, f) == Total(s, f) + f(x)
  {
    TotalWithout(s + {x}, x, f);
    assert s + {x} - {x} == s;
  }

  lemma {:induction false} TotalCongruence<T>(s: set<T>, f: T -> real, g: T -> real)
    requires forall x :: x in s ==> f(x) == g(x)
    ensures Total(s, f) == Total(s, g)
    decreases |s|
  {
    if s != {} {
      var x :| x in s;
      TotalWithout(s, x, f);
      TotalWithout(s, x, g);
      TotalCongruence(s - {x}, f, g);
    }
  }

  lemma {:induction false} TotalOfZero<T>(s: set<T>, f: T -> real)
    requires forall x :: x in s ==> f(x) == 0.0
    ensures Total(s, f) == 0.0
    decreases |s|
  {
    if s != {} {
      var x :| x in s;
      TotalWithout(s, x, f);
      TotalOfZero(s - {x}, f);
    }
  }

  lemma {:induction false} TotalIsAdditive<T>(s: set<T>, f: T -> real, g: T -> real, h: T -> real)
    requires forall x :: x in s ==> h(x) == f(x) + g(x)
    ensures Total(s, h) == Total(s, f) + Total(s, g)
    decreases |s|
  {
    if s != {} {
      var x :| x in s;
      TotalWithout(s, x, f);
      TotalWithout(s, x, g);
      TotalWithout(s, x, h);
      TotalIsAdditive(s - {x}, f, g, h);
    }
  }

  /** Elements that weigh nothing can be left out. */
  lemma {:induction false} TotalOfPart<T>(part: set<T>, s: set<T>, f: T -> real)
    requires part <= s && forall x :: x in s - part ==> f(x) == 0.0
    ensures Total(part, f) == Total(s, f)
    decreases |s|
  {
    if s - part == {} {
      assert part == s;
    } else {
      var x :| x in s - part;
      TotalWithout(s, x, f);
      TotalOfPart(part, s - {x}, f);
    }
  }

  /** A list without repetition has the total of its set of elements. */
  lemma {:induction false} SumOfDistinct<T>(s: seq<T>, f: T -> real)
    requires forall i, j :: 0 <= i < j < |s| ==> s[i] != s[j]
    ensures Sum(s, f) == Total((set x | x in s), f)
  {
    if s != [] {
      var last := s[|s| - 1];
      var init := s[..|s| - 1];
      SumOfDistinct(init, f);
      assert last !in init;
      assert (set x | x in s) == (set x | x in init) + {last};
      TotalWith((set x | x in init), last, f);
    }
  }

  /** `f` restricted to the elements that `kind` puts in class `c`. */
  function InClass<T, C(==)>(kind: T -> C, c: C, f: T -> real): T -> real {
    x => if kind(x) == c then f(x) else 0.0
  }

  ghost function ClassTotal<T, C>(s: set<T>, kind: T -> C, f: T -> real): C -> real {
    c => Total(s, InClass(kind, c, f))
  }

  /** Totals per class add up to the whole, when every element has its class among `classes`. */
  lemma {:induction false} TotalByClass<T, C>(s: set<T>, classes: set<C>, kind: T -> C, f: T -> real)
    requires forall x :: x in s ==> kind(x) in classes
    ensures Total(classes, ClassTotal(s, kind, f)) == Total(s, f)
    decreases |s|
  {
    if s == {} {
      forall c | c in classes ensures ClassTotal(s, kind, f)(c) == 0.0 {
        assert Total(s, InClass(kind, c, f)) == 0.0;
      }
      TotalOfZero(classes, ClassTotal(s, kind, f));
    } else {
      var x :| x in s;
      TotalByClass(s - {x}, classes, kind, f);
      TotalWithout(s, x, f);
      ClassGrows(s, classes, x, kind, f);
    }
  }

  /** One element more raises the total of its own class, by its weight. */
  lemma ClassGrows<T, C>(s: set<T>, classes: set<C>, x: T, kind: T -> C, f: T -> real)
    requires x in s && kind(x) in classes
    ensures Total(classes, ClassTotal(s, kind, f)) == Total(classes, ClassTotal(s - {x}, kind, f)) + f(x)
  {
    var home, after, before := kind(x), ClassTotal(s, kind, f), ClassTotal(s - {x}, kind, f);
    forall c | c in classes - {home} ensures after(c) == before(c) {
      TotalWithout(s, x, InClass(kind, c, f));
    }
    TotalWithout(s, x, InClass(kind, home, f));
    TotalCongruence(classes - {home}, after, before);
    TotalWithout(classes, home, after);
    TotalWithout(classes, home, before);
  }

  function Zeros<C>(classes: set<C>): (totals: map<C, real>)
    ensures totals.Keys == classes
    ensures forall c :: c in totals ==> totals[c] == 0.0
  {
    map c | c in classes :: 0.0
  }

  /** The loop that adds every item to the running total of its class. */
  method GroupTotals<K(==, !new), C(==, !new)>(items: set<K>, classes: set<C>, kind: K -> C, f: K -> real)
    returns (totals: map<C, real>)
    requires forall k :: k in items ==> kind(k) in classes
    ensures totals.Keys == classes
    ensures forall c :: c in classes ==> totals[c] == Total(items, InClass(kind, c, f))
  {
    totals := Zeros(classes);
    var rest := items;
    while rest != {}
      invariant rest <= items && totals.Keys == classes
      invariant Grouping(items, rest, kind, f, totals)
    {
      var k :| k in rest;
      GroupStep(items, rest, k, kind, f, totals);
      totals := totals[kind(k) := totals[kind(k)] + f(k)];
      rest := rest - {k};
    }
  }

  ghost predicate Grouping<K(!new), C(!new)>(items: set<K>, rest: set<K>, kind: K -> C, f: K -> real,
                                             totals: map<C, real>)
  {
    forall c :: c in totals ==> totals[c] + Total(rest, InClass(kind, c, f)) == Total(items, InClass(kind, c, f))
  }

  lemma GroupStep<K(!new), C(!new)>(items: set<K>, rest: set<K>, k: K, kind: K -> C, f: K -> real, totals: map<C, real>)
    requires k in rest && kind(k) in totals && Grouping(items, rest, kind, f, totals)
    ensures Grouping(items, rest - {k}, kind, f, totals[kind(k) := totals[kind(k)] + f(k)])
  {
    forall c | c in totals
      ensures Total(rest, InClass(kind, c, f))
           == Total(rest - {k}, InClass(kind, c, f)) + (if kind(k) == c then f(k) else 0.0)
    {
      TotalWithout(rest, k, InClass(kind, c, f));
    }
  }

  function At<C>(totals: map<C, real>): C -> real {
    c => if c in totals then totals[c] else 0.0
  }

  /** The sum of the values of a dictionary. */
  method AddUp<C(==)>(totals: map<C, real>) returns (sum: real)
    ensures sum == Total(totals.Keys, At(totals))
  {
    sum := 0.0;
    var rest := totals.Keys;
    while rest != {}
      invariant rest <= totals.Keys && sum + Total(rest, At(totals)) == Total(totals.Keys, At(totals))
    {
      var c :| c in rest;
      TotalWithout(rest, c, At(totals));
      sum := sum + totals[c];
      rest := rest - {c};
    }
  }
}
