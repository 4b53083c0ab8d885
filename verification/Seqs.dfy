/** Filtering of lists, the comprehension the finance engine selects its facts with. */
module Seqs {
  import opened Options
  import opened Sorting
  import opened Sums

  function Filter<T(!new)>(s: seq<T>, p: T -> bool): (r: seq<T>)
    ensures |r| <= |s|
    ensures forall x :: x in r <==> x in s && p(x)
  {
    if s == [] then []
    else if p(s[|s| - 1]) then Filter(s[..|s| - 1], p) + [s[|s| - 1]]
    else Filter(s[..|s| - 1], p)
  }

  lemma {:induction false} FilterOfConcat<T(!new)>(a: seq<T>, b: seq<T>, p: T -> bool)
    ensures Filter(a + b, p) == Filter(a, p) + Filter(b, p)
  {
    if b == [] {
      assert a + b == a;
    } else {
      assert (a + b)[..|a + b| - 1] == a + b[..|b| - 1];
      FilterOfConcat(a, b[..|b| - 1], p);
    }
  }

  lemma FilterAppend<T(!new)>(s: seq<T>, x: T, p: T -> bool)
    ensures Filter(s + [x], p) == if p(x) then Filter(s, p) + [x] else Filter(s, p)
  {
    assert (s + [x])[..|s|] == s;
  }

  lemma FilterSingle<T(!new)>(x: T, p: T -> bool)
    ensures |Filter([x], p)| == if p(x) then 1 else 0
  {
    assert [] + [x] == [x];
    FilterAppend([], x, p);
  }

  lemma FilterNext<T(!new)>(s: seq<T>, i: nat, p: T -> bool)
    requires i < |s|
    ensures Filter(s[..i + 1], p) == if p(s[i]) then Filter(s[..i], p) + [s[i]] else Filter(s[..i], p)
  {
    assert s[..i + 1] == s[..i] + [s[i]];
    FilterAppend(s[..i], s[i], p);
  }

  lemma FilterAround<T(!new)>(a: seq<T>, x: T, b: seq<T>, p: T -> bool)
    requires p(x)
    ensures Filter(a + [x] + b, p) == Filter(a, p) + [x] + Filter(b, p)
  {
    FilterOfConcat(a + [x], b, p);
    FilterAppend(a, x, p);
  }

  lemma FilterAt<T(!new)>(s: seq<T>, p: T -> bool, i: nat)
    requires i < |s| && p(s[i])
    ensures Filter(s, p) == Filter(s[..i], p) + [s[i]] + Filter(s[i + 1..], p)
  {
    Around(s, i);
    FilterAround(s[..i], s[i], s[i + 1..], p);
  }

  lemma Around<T>(s: seq<T>, i: nat)
    requires i < |s|
    ensures s[..i] + [s[i]] + s[i + 1..] == s
  {
  }

  /** Only one place of a list is selected. */
  ghost predicate OnlyAt<T(!new)>(s: seq<T>, p: T -> bool, i: nat) {
    i < |s| && p(s[i]) && forall j: nat :: j < |s| && p(s[j]) ==> j == i
  }

  ghost predicate OnlyAtBoth<T(!new)>(s: seq<T>, p: T -> bool, i: nat, j: nat) {
    i < j < |s| && p(s[i]) && p(s[j]) && forall n: nat :: n < |s| && p(s[n]) ==> n == i || n == j
  }

  lemma FilterOnly<T(!new)>(s: seq<T>, p: T -> bool, i: nat)
    requires OnlyAt(s, p, i)
    ensures Filter(s, p) == [s[i]]
  {
    FilterAt(s, p, i);
    FilterNone(s[..i], p);
    FilterNone(s[i + 1..], p);
  }

  lemma NoneSelected<T(!new)>(s: seq<T>, p: T -> bool)
    requires Filter(s, p) == []
    ensures forall i: nat :: i < |s| ==> !p(s[i])
  {
    assert forall i: nat :: i < |s| ==> s[i] in s;
  }

  lemma FilterOne<T(!new)>(s: seq<T>, p: T -> bool) returns (i: nat)
    requires |Filter(s, p)| == 1
    ensures OnlyAt(s, p, i)
  {
    var x := Filter(s, p)[0];
    assert x in Filter(s, p);
    i :| i < |s| && s[i] == x;
    FilterAt(s, p, i);
    NoneSelected(s[..i], p);
    NoneSelected(s[i + 1..], p);
    assert forall j: nat :: i < j < |s| ==> s[j] == s[i + 1..][j - i - 1];
  }

  lemma FilterBoth<T(!new)>(s: seq<T>, p: T -> bool, i: nat, j: nat)
    requires OnlyAtBoth(s, p, i, j)
    ensures Filter(s, p) == [s[i], s[j]]
  {
    FilterAt(s, p, i);
    FilterNone(s[..i], p);
    FilterOnly(s[i + 1..], p, j - i - 1);
  }

  lemma FilterTwo<T(!new)>(s: seq<T>, p: T -> bool) returns (i: nat, j: nat)
    requires |Filter(s, p)| == 2
    ensures OnlyAtBoth(s, p, i, j)
  {
    var x := Filter(s, p)[0];
    assert x in Filter(s, p);
    var n: nat :| n < |s| && s[n] == x;
    FilterAt(s, p, n);
    if |Filter(s[..n], p)| == 1 {
      var m := FilterOne(s[..n], p);
      i, j := m, n;
    } else {
      var m := FilterOne(s[n + 1..], p);
      i, j := n, n + 1 + m;
    }
    forall k: nat | k < |s| && p(s[k]) ensures k == i || k == j {
      if k < n {
        assert s[k] == s[..n][k] && s[..n][k] in Filter(s[..n], p);
      } else if k > n {
        assert s[k] == s[n + 1..][k - n - 1] && s[k] in Filter(s[n + 1..], p);
      }
    }
  }

  /** Filtering counts each element as often as the list does. */
  lemma {:induction false} FilterCount<T(!new)>(s: seq<T>, p: T -> bool, x: T)
    ensures multiset(Filter(s, p))[x] == if p(x) then multiset(s)[x] else 0
  {
    if s != [] {
      var init, last := s[..|s| - 1], s[|s| - 1];
      FilterCount(init, p, x);
      assert s == init + [last];
      assert multiset(s) == multiset(init) + multiset{last};
      if p(last) {
        assert multiset(Filter(init, p) + [last]) == multiset(Filter(init, p)) + multiset{last};
      }
    }
  }

  /** Filtering a reordered list reorders the result. */
  lemma FilterPermutation<T(!new)>(a: seq<T>, b: seq<T>, p: T -> bool)
    requires multiset(a) == multiset(b)
    ensures multiset(Filter(a, p)) == multiset(Filter(b, p)) && |Filter(a, p)| == |Filter(b, p)|
  {
    forall x ensures multiset(Filter(a, p))[x] == multiset(Filter(b, p))[x] {
      FilterCount(a, p, x);
      FilterCount(b, p, x);
    }
    assert multiset(Filter(a, p)) == multiset(Filter(b, p));
    assert |multiset(Filter(a, p))| == |Filter(a, p)| && |multiset(Filter(b, p))| == |Filter(b, p)|;
  }

  /** A selection keeps any order its list is in. */
  lemma {:induction false} FilterKeepsOrder<T(!new)>(s: seq<T>, p: T -> bool, before: (T, T) -> bool)
    requires Sorted(s, before)
    ensures Sorted(Filter(s, p), before)
  {
    if s != [] {
      var init, last := s[..|s| - 1], s[|s| - 1];
      FilterKeepsOrder(init, p, before);
      var kept := Filter(init, p);
      forall i | 0 <= i < |kept| ensures before(kept[i], last) {
        assert kept[i] in kept;
        var n :| 0 <= n < |init| && init[n] == kept[i];
        assert before(s[n], s[|s| - 1]);
      }
    }
  }

  lemma {:induction false} FilterCongruence<T(!new)>(s: seq<T>, p: T -> bool, q: T -> bool)
    requires forall x :: x in s ==> p(x) == q(x)
    ensures Filter(s, p) == Filter(s, q)
  {
    if s != [] {
      assert s[|s| - 1] in s;
      FilterCongruence(s[..|s| - 1], p, q);
    }
  }

  lemma {:induction false} FilterNone<T(!new)>(s: seq<T>, p: T -> bool)
    requires forall x :: x in s ==> !p(x)
    ensures Filter(s, p) == []
  {
    if s != [] {
      assert s[|s| - 1] in s;
      FilterNone(s[..|s| - 1], p);
    }
  }

  lemma {:induction false} FilterTwice<T(!new)>(s: seq<T>, p: T -> bool, q: T -> bool, both: T -> bool)
    requires forall x :: both(x) == (p(x) && q(x))
    ensures Filter(Filter(s, p), q) == Filter(s, both)
  {
    if s != [] {
      var init, last := s[..|s| - 1], s[|s| - 1];
      FilterTwice(init, p, q, both);
      if p(last) {
        FilterAppend(Filter(init, p), last, q);
      }
    }
  }

  /** A stricter selection selects no more. */
  lemma {:induction false} FilterFewer<T(!new)>(s: seq<T>, p: T -> bool, q: T -> bool)
    requires forall x :: x in s && p(x) ==> q(x)
    ensures |Filter(s, p)| <= |Filter(s, q)|
  {
    if s != [] {
      assert s[|s| - 1] in s;
      FilterFewer(s[..|s| - 1], p, q);
    }
  }

  /** The total of the selected elements, as a total over the whole list. */
  lemma {:induction false} SumOfFilter<T(!new)>(s: seq<T>, p: T -> bool, f: T -> real, g: T -> real)
    requires forall x :: x in s ==> g(x) == if p(x) then f(x) else 0.0
    ensures Sum(Filter(s, p), f) == Sum(s, g)
  {
    if s != [] {
      var init, last := s[..|s| - 1], s[|s| - 1];
      assert last in s;
      SumOfFilter(init, p, f, g);
      if p(last) {
        SumAppend(Filter(init, p), last, f);
      }
    }
  }

  ghost function ClassSum<T(!new), C(!new)>(s: seq<T>, kind: T -> C, f: T -> real): C -> real {
    c => Sum(s, InClass(kind, c, f))
  }

  /** Totals per class add up to the whole list. */
  lemma {:induction false} SumByClass<T(!new), C(!new)>(s: seq<T>, classes: set<C>, kind: T -> C, f: T -> real)
    requires forall x :: x in s ==> kind(x) in classes
    ensures Total(classes, ClassSum(s, kind, f)) == Sum(s, f)
  {
    if s == [] {
      forall c | c in classes ensures ClassSum(s, kind, f)(c) == 0.0 {
        assert Sum(s, InClass(kind, c, f)) == 0.0;
      }
      TotalOfZero(classes, ClassSum(s, kind, f));
    } else {
      var init, last := s[..|s| - 1], s[|s| - 1];
      assert last in s;
      SumByClass(init, classes, kind, f);
      var home := kind(last);
      assert ClassSum(s, kind, f)(home) == ClassSum(init, kind, f)(home) + f(last);
      TotalCongruence(classes - {home}, ClassSum(s, kind, f), ClassSum(init, kind, f));
      TotalWithout(classes, home, ClassSum(s, kind, f));
      TotalWithout(classes, home, ClassSum(init, kind, f));
    }
  }

  /** The values that some elements of a list yield, in order. */
  function Collect<T(!new), U(!new)>(s: seq<T>, f: T -> Option<U>): (r: seq<U>)
    ensures forall u :: u in r <==> exists x :: x in s && f(x) == Some(u)
  {
    if s == [] then []
    else
      var init, last := Collect(s[..|s| - 1], f), s[|s| - 1];
      assert s == s[..|s| - 1] + [last];
      if f(last).Some? then init + [f(last).value] else init
  }

  lemma CollectAppend<T(!new), U(!new)>(s: seq<T>, x: T, f: T -> Option<U>)
    ensures Collect(s + [x], f) == if f(x).Some? then Collect(s, f) + [f(x).value] else Collect(s, f)
  {
    assert (s + [x])[..|s|] == s;
  }

  lemma CollectNext<T(!new), U(!new)>(s: seq<T>, i: nat, f: T -> Option<U>)
    requires i < |s|
    ensures Collect(s[..i + 1], f) == if f(s[i]).Some? then Collect(s[..i], f) + [f(s[i]).value] else Collect(s[..i], f)
  {
    assert s[..i + 1] == s[..i] + [s[i]];
    CollectAppend(s[..i], s[i], f);
  }

  /** The total of what is collected, by where it comes from. */
  lemma {:induction false} SumOfCollect<T(!new), U(!new)>(s: seq<T>, f: T -> Option<U>, w: U -> real, v: T -> real)
    requires forall x :: x in s ==> v(x) == if f(x).Some? then w(f(x).value) else 0.0
    ensures Sum(Collect(s, f), w) == Sum(s, v)
  {
    if s != [] {
      var init, last := s[..|s| - 1], s[|s| - 1];
      assert last in s;
      SumOfCollect(init, f, w, v);
      if f(last).Some? {
        SumAppend(Collect(init, f), f(last).value, w);
      }
    }
  }

  ghost predicate OrderedBy<T(!new), U(!new)>(s: seq<U>, origin: U -> T, before: (T, T) -> bool) {
    forall i, j :: 0 <= i < j < |s| ==> before(origin(s[i]), origin(s[j]))
  }

  /** Collecting keeps the order of what it collects from. */
  lemma {:induction false} CollectKeepsOrder<T(!new), U(!new)>(s: seq<T>, f: T -> Option<U>,
                                                               origin: U -> T, before: (T, T) -> bool)
    requires Sorted(s, before) && forall x :: f(x).Some? ==> origin(f(x).value) == x
    ensures OrderedBy(Collect(s, f), origin, before)
  {
    if s != [] {
      var init, last := s[..|s| - 1], s[|s| - 1];
      CollectKeepsOrder(init, f, origin, before);
      var earlier := Collect(init, f);
      if f(last).Some? {
        forall i | 0 <= i < |earlier| ensures before(origin(earlier[i]), last) {
          assert earlier[i] in earlier;
          var x :| x in init && f(x) == Some(earlier[i]);
          var n :| 0 <= n < |init| && init[n] == x;
          assert before(s[n], s[|s| - 1]);
        }
      }
    }
  }

  // ----- Grouping by a key, as setdefault(key, []).append(x) does -----

  function HasKey<T, K(==)>(key: T -> K, k: K): T -> bool {
    x => key(x) == k
  }

  ghost function KeysOf<T(!new), K(!new)>(s: seq<T>, key: T -> K): set<K> {
    set x | x in s :: key(x)
  }

  function Append<T, K(==)>(groups: map<K, seq<T>>, k: K, x: T): map<K, seq<T>> {
    groups[k := (if k in groups then groups[k] else []) + [x]]
  }

  ghost predicate Grouped<T(!new), K(!new)>(s: seq<T>, key: T -> K, groups: map<K, seq<T>>) {
    groups.Keys == KeysOf(s, key) && forall k :: k in groups ==> groups[k] == Filter(s, HasKey(key, k))
  }

  lemma KeysOfAppend<T(!new), K(!new)>(s: seq<T>, key: T -> K, x: T)
    ensures KeysOf(s + [x], key) == KeysOf(s, key) + {key(x)}
  {
    assert x in s + [x];
    assert forall y :: y in s ==> y in s + [x];
  }

  lemma GroupOneMore<T(!new), K(!new)>(s: seq<T>, key: T -> K, groups: map<K, seq<T>>, x: T)
    requires Grouped(s, key, groups)
    ensures Grouped(s + [x], key, Append(groups, key(x), x))
  {
    var groups' := Append(groups, key(x), x);
    KeysOfAppend(s, key, x);
    assert groups'.Keys == groups.Keys + {key(x)};
    if key(x) !in groups {
      forall y | y in s ensures !HasKey(key, key(x))(y) {
        assert key(y) in KeysOf(s, key);
      }
      FilterNone(s, HasKey(key, key(x)));
    }
    forall k | k in groups' ensures groups'[k] == Filter(s + [x], HasKey(key, k)) {
      FilterAppend(s, x, HasKey(key, k));
    }
  }

  lemma GroupNothing<T(!new), K(!new)>(s: seq<T>, key: T -> K, groups: map<K, seq<T>>)
    requires s == [] && groups == map[]
    ensures Grouped(s, key, groups)
  {
    assert KeysOf(s, key) == {};
  }

  lemma GroupUpTo<T(!new), K(!new)>(s: seq<T>, i: nat, key: T -> K, groups: map<K, seq<T>>)
    requires i < |s| && Grouped(s[..i], key, groups)
    ensures Grouped(s[..i + 1], key, Append(groups, key(s[i]), s[i]))
  {
    GroupOneMore(s[..i], key, groups, s[i]);
    assert s[..i + 1] == s[..i] + [s[i]];
  }

  method GroupBy<T(!new), K(==, !new)>(s: seq<T>, key: T -> K) returns (groups: map<K, seq<T>>)
    ensures Grouped(s, key, groups)
  {
    groups := map[];
    GroupNothing(s[..0], key, groups);
    for i := 0 to |s|
      invariant Grouped(s[..i], key, groups)
    {
      GroupUpTo(s, i, key, groups);
      groups := Append(groups, key(s[i]), s[i]);
    }
    assert s[..|s|] == s;
  }

  /** The keys of the selected elements, in the order a dictionary keeps: that of their first elements. */
  function FirstKeys<T(!new), K(==, !new)>(s: seq<T>, p: T -> bool, key: T -> K): (keys: seq<K>)
    ensures forall k :: k in keys <==> exists x :: x in s && p(x) && key(x) == k
  {
    if s == [] then []
    else
      var last, earlier := s[|s| - 1], FirstKeys(s[..|s| - 1], p, key);
      assert s == s[..|s| - 1] + [last];
      if p(last) && key(last) !in earlier then earlier + [key(last)] else earlier
  }

  /** The first element of one key comes before every element of another. */
  ghost predicate FirstBefore<T(!new), K(!new)>(s: seq<T>, p: T -> bool, key: T -> K, k: K, later: K) {
    exists i :: 0 <= i < |s| && p(s[i]) && key(s[i]) == k && Absent(s[..i + 1], p, key, later)
  }

  ghost predicate Absent<T(!new), K(!new)>(s: seq<T>, p: T -> bool, key: T -> K, k: K) {
    forall x :: x in s && p(x) ==> key(x) != k
  }

  ghost function Earlier<T(!new), K(!new)>(s: seq<T>, p: T -> bool, key: T -> K): (K, K) -> bool {
    (k, later) => FirstBefore(s, p, key, k, later)
  }

  lemma StillBefore<T(!new), K(!new)>(s: seq<T>, x: T, p: T -> bool, key: T -> K, k: K, later: K)
    requires FirstBefore(s, p, key, k, later)
    ensures FirstBefore(s + [x], p, key, k, later)
  {
    var i :| 0 <= i < |s| && p(s[i]) && key(s[i]) == k && Absent(s[..i + 1], p, key, later);
    assert (s + [x])[i] == s[i] && (s + [x])[..i + 1] == s[..i + 1];
  }

  lemma NewIsLater<T(!new), K(!new)>(s: seq<T>, x: T, p: T -> bool, key: T -> K, k: K, later: K)
    requires Absent(s, p, key, later) && !Absent(s, p, key, k)
    ensures FirstBefore(s + [x], p, key, k, later)
  {
    var y :| y in s && p(y) && key(y) == k;
    var i :| 0 <= i < |s| && s[i] == y;
    assert (s + [x])[i] == s[i] && (s + [x])[..i + 1] == s[..i + 1];
  }

  lemma {:induction false} FirstKeysInOrder<T(!new), K(!new)>(s: seq<T>, p: T -> bool, key: T -> K)
    ensures Sorted(FirstKeys(s, p, key), Earlier(s, p, key))
  {
    if s != [] {
      var init, last := s[..|s| - 1], s[|s| - 1];
      var earlier, keys := FirstKeys(init, p, key), FirstKeys(s, p, key);
      FirstKeysInOrder(init, p, key);
      assert s == init + [last];
      forall i, j | 0 <= i < j < |keys| ensures Earlier(s, p, key)(keys[i], keys[j]) {
        if j < |earlier| {
          assert Earlier(init, p, key)(earlier[i], earlier[j]);
          StillBefore(init, last, p, key, keys[i], keys[j]);
        } else {
          assert earlier[i] in earlier && key(last) !in earlier;
          NewIsLater(init, last, p, key, keys[i], keys[j]);
        }
      }
    }
  }

  /** No key comes before itself, so each is listed once. */
  lemma FirstKeysDiffer<T(!new), K(!new)>(s: seq<T>, p: T -> bool, key: T -> K, keys: seq<K>)
    requires Sorted(keys, Earlier(s, p, key))
    ensures forall i, j :: 0 <= i < j < |keys| ==> keys[i] != keys[j]
  {
    forall i, j | 0 <= i < j < |keys| ensures keys[i] != keys[j] {
      assert Earlier(s, p, key)(keys[i], keys[j]);
      var n :| 0 <= n < |s| && p(s[n]) && key(s[n]) == keys[i] && Absent(s[..n + 1], p, key, keys[j]);
      assert s[..n + 1][n] == s[n];
    }
  }

  lemma FirstKeysAppend<T(!new), K(!new)>(s: seq<T>, x: T, p: T -> bool, key: T -> K)
    ensures FirstKeys(s + [x], p, key) ==
            if p(x) && key(x) !in FirstKeys(s, p, key) then FirstKeys(s, p, key) + [key(x)] else FirstKeys(s, p, key)
  {
    assert (s + [x])[..|s|] == s;
  }

  lemma GroupIsPresent<T(!new), K(!new)>(s: seq<T>, key: T -> K, k: K)
    requires k in KeysOf(s, key)
    ensures Filter(s, HasKey(key, k)) != []
  {
    var x :| x in s && key(x) == k;
    assert x in Filter(s, HasKey(key, k));
  }

  /** Three disjoint selections that make up a fourth. */
  ghost predicate Splits<T(!new)>(s: seq<T>, whole: T -> bool, p: T -> bool, q: T -> bool, r: T -> bool) {
    && (forall x :: x in s ==> whole(x) == (p(x) || q(x) || r(x)))
    && (forall x :: x in s ==> !(p(x) && q(x)) && !(p(x) && r(x)) && !(q(x) && r(x)))
  }

  function Masked<T>(p: T -> bool, f: T -> real): T -> real {
    x => if p(x) then f(x) else 0.0
  }

  lemma {:induction false} MaskedSum<T(!new)>(s: seq<T>, p: T -> bool, f: T -> real)
    ensures Sum(Filter(s, p), f) == Sum(s, Masked(p, f))
  {
    SumOfFilter(s, p, f, Masked(p, f));
  }

  lemma {:induction false} SumOfThree<T(!new)>(s: seq<T>, whole: T -> real, f: T -> real, g: T -> real, h: T -> real)
    requires forall x :: x in s ==> whole(x) == f(x) + g(x) + h(x)
    ensures Sum(s, whole) == Sum(s, f) + Sum(s, g) + Sum(s, h)
  {
    if s != [] {
      assert s[|s| - 1] in s;
      SumOfThree(s[..|s| - 1], whole, f, g, h);
    }
  }

  lemma SumThreeWays<T(!new)>(s: seq<T>, whole: T -> bool, p: T -> bool, q: T -> bool, r: T -> bool, f: T -> real)
    requires Splits(s, whole, p, q, r)
    ensures Sum(Filter(s, whole), f) == Sum(Filter(s, p), f) + Sum(Filter(s, q), f) + Sum(Filter(s, r), f)
  {
    MaskedSum(s, whole, f);
    MaskedSum(s, p, f);
    MaskedSum(s, q, f);
    MaskedSum(s, r, f);
    SumOfThree(s, Masked(whole, f), Masked(p, f), Masked(q, f), Masked(r, f));
  }

  // ----- Totals that are unavailable when a part of them is -----

  /** What an element adds to a total once it is known to convert. */
  function Worth<T>(convert: T -> Option<real>): T -> real {
    x => convert(x).Or(0.0)
  }

  predicate Converts<T(==)>(convert: T -> Option<real>, s: seq<T>) {
    forall x :: x in s ==> convert(x).Some?
  }

  /** The total of a list: unavailable when it is empty or one element cannot be converted. */
  function Reported<T(==)>(s: seq<T>, convert: T -> Option<real>): Option<real> {
    if s == [] || !Converts(convert, s) then None else Some(Sum(s, Worth(convert)))
  }

  ghost predicate SameBag<T>(a: seq<T>, b: seq<T>) {
    multiset(a) == multiset(b)
  }

  lemma SameBagMembers<T>(a: seq<T>, b: seq<T>)
    requires SameBag(a, b)
    ensures |a| == |b| && forall x :: x in a <==> x in b
  {
    assert |multiset(a)| == |a| && |multiset(b)| == |b|;
    assert forall x :: x in a <==> x in multiset(a);
    assert forall x :: x in b <==> x in multiset(b);
  }

  lemma SameBagSingleton<T>(a: seq<T>, b: seq<T>)
    requires SameBag(a, b) && |a| == 1
    ensures a == b
  {
    SameBagMembers(a, b);
    assert a[0] in b;
  }

  lemma MoveToFront<T>(s: seq<T>, i: nat)
    requires i < |s|
    ensures SameBag(s, [s[i]] + (s[..i] + s[i + 1..]))
  {
    MultisetWithout(s, i);
  }

  lemma FilterSameBag<T(!new)>(a: seq<T>, b: seq<T>, p: T -> bool, q: T -> bool)
    requires SameBag(a, b) && forall x :: p(x) == q(x)
    ensures SameBag(Filter(a, p), Filter(b, q)) && |Filter(a, p)| == |Filter(b, q)|
  {
    FilterPermutation(a, b, p);
    FilterCongruence(b, p, q);
  }

  lemma SameReport<T(!new)>(a: seq<T>, b: seq<T>, convert: T -> Option<real>, convert': T -> Option<real>)
    requires SameBag(a, b) && forall x :: convert(x) == convert'(x)
    ensures Reported(a, convert) == Reported(b, convert')
  {
    SameBagMembers(a, b);
    SumPermutation(a, b, Worth(convert));
    SumCongruence(b, Worth(convert), Worth(convert'));
  }

  /** The report of three parts together: unavailable when one element of one part cannot be converted or
      all parts are empty; else the sum of the three reports, an empty part counting as zero. */
  function RolledUp<T(==)>(a: seq<T>, b: seq<T>, c: seq<T>, convert: T -> Option<real>): Option<real> {
    if !Converts(convert, a) || !Converts(convert, b) || !Converts(convert, c) then None
    else if a == [] && b == [] && c == [] then None
    else Some(Reported(a, convert).Or(0.0) + Reported(b, convert).Or(0.0) + Reported(c, convert).Or(0.0))
  }

  /** A total over three disjoint parts: unavailable when all are empty or one does not convert. */
  lemma ReportedInParts<T(!new)>(s: seq<T>, whole: T -> bool,
                                 p: T -> bool, q: T -> bool, r: T -> bool, convert: T -> Option<real>)
    requires Splits(s, whole, p, q, r)
    ensures Reported(Filter(s, whole), convert) == RolledUp(Filter(s, p), Filter(s, q), Filter(s, r), convert)
  {
    SumThreeWays(s, whole, p, q, r, Worth(convert));
    SplitMembers(s, whole, p, q, r, convert);
    ReportsAddUp(Filter(s, whole), Filter(s, p), Filter(s, q), Filter(s, r), convert);
  }

  lemma ReportsAddUp<T>(d: seq<T>, a: seq<T>, b: seq<T>, c: seq<T>, convert: T -> Option<real>)
    requires Sum(d, Worth(convert)) == Sum(a, Worth(convert)) + Sum(b, Worth(convert)) + Sum(c, Worth(convert))
    requires d == [] <==> a == [] && b == [] && c == []
    requires Converts(convert, d) <==> Converts(convert, a) && Converts(convert, b) && Converts(convert, c)
    ensures Reported(d, convert) == RolledUp(a, b, c, convert)
  {
    if Converts(convert, d) && d != [] {
      RolledUpSum(a, b, c, convert, Sum(a, Worth(convert)), Sum(b, Worth(convert)), Sum(c, Worth(convert)));
    }
  }

  /** Where everything converts the report is the sum of the three. */
  lemma RolledUpSum<T>(a: seq<T>, b: seq<T>, c: seq<T>, convert: T -> Option<real>, x: real, y: real, z: real)
    requires Converts(convert, a) && Converts(convert, b) && Converts(convert, c) && (a != [] || b != [] || c != [])
    requires x == Sum(a, Worth(convert)) && y == Sum(b, Worth(convert)) && z == Sum(c, Worth(convert))
    ensures RolledUp(a, b, c, convert) == Some(x + y + z)
  {
    ReportValue(a, convert, x);
    ReportValue(b, convert, y);
    ReportValue(c, convert, z);
  }

  lemma ReportValue<T>(s: seq<T>, convert: T -> Option<real>, sum: real)
    requires Converts(convert, s) && sum == Sum(s, Worth(convert))
    ensures Reported(s, convert).Or(0.0) == sum
  {
  }

  lemma SplitMembers<T(!new)>(s: seq<T>, whole: T -> bool,
                              p: T -> bool, q: T -> bool, r: T -> bool, convert: T -> Option<real>)
    requires Splits(s, whole, p, q, r)
    ensures var a, b, c := Filter(s, p), Filter(s, q), Filter(s, r);
            && (Filter(s, whole) == [] <==> a == [] && b == [] && c == [])
            && (Converts(convert, Filter(s, whole)) <==>
                Converts(convert, a) && Converts(convert, b) && Converts(convert, c))
  {
    var a, b, c, d := Filter(s, p), Filter(s, q), Filter(s, r), Filter(s, whole);
    assert forall x :: x in d <==> x in a || x in b || x in c by {
      forall x ensures x in d <==> x in a || x in b || x in c {
      }
    }
    Pooled(a, b, c, d, convert);
  }

  lemma Pooled<T(!new)>(a: seq<T>, b: seq<T>, c: seq<T>, d: seq<T>, convert: T -> Option<real>)
    requires forall x :: x in d <==> x in a || x in b || x in c
    ensures d == [] <==> a == [] && b == [] && c == []
    ensures Converts(convert, d) <==> Converts(convert, a) && Converts(convert, b) && Converts(convert, c)
  {
    NonEmpty(a);
    NonEmpty(b);
    NonEmpty(c);
    NonEmpty(d);
  }

  lemma NonEmpty<T>(s: seq<T>)
    ensures s != [] <==> exists x :: x in s
  {
    if s != [] {
      assert s[0] in s;
    }
  }

  // ----- Two places of a list -----

  /** Two elements at different places of a list. */
  ghost predicate TwoOf<T>(s: seq<T>, a: T, b: T) {
    a in s && b in s && (a != b || multiset(s)[a] >= 2)
  }

  ghost predicate Places<T>(s: seq<T>, i: int, j: int, a: T, b: T) {
    0 <= i < |s| && 0 <= j < |s| && i != j && s[i] == a && s[j] == b
  }

  lemma PlacesOf<T>(s: seq<T>, a: T, b: T) returns (i: nat, j: nat)
    requires TwoOf(s, a, b)
    ensures Places(s, i, j, a, b)
  {
    i :| i < |s| && s[i] == a;
    var rest := s[..i] + s[i + 1..];
    MultisetWithout(s, i);
    assert b in multiset(s) && b in multiset(rest);
    var k :| 0 <= k < |rest| && rest[k] == b;
    j := if k < i then k else k + 1;
  }

  lemma PlacesAreTwo<T>(s: seq<T>, i: nat, j: nat)
    requires i < |s| && j < |s| && i != j
    ensures TwoOf(s, s[i], s[j])
  {
    MultisetWithout(s, i);
    var rest := s[..i] + s[i + 1..];
    assert rest[if j < i then j else j - 1] == s[j];
    assert s[j] in multiset(rest);
  }

  /** No two places hold elements with the same key. */
  ghost predicate KeysDiffer<T(!new), K>(s: seq<T>, key: T -> K) {
    forall a, b :: TwoOf(s, a, b) ==> key(a) != key(b)
  }

  lemma KeysDifferAppend<T(!new), K(!new)>(s: seq<T>, key: T -> K, x: T)
    ensures KeysDiffer(s + [x], key) <==> KeysDiffer(s, key) && key(x) !in KeysOf(s, key)
  {
    var t := s + [x];
    assert multiset(t) == multiset(s) + multiset{x};
    if KeysDiffer(t, key) {
      forall y | y in s ensures key(y) != key(x) {
        assert TwoOf(t, y, x);
      }
      forall a, b | TwoOf(s, a, b) ensures key(a) != key(b) {
        assert TwoOf(t, a, b);
      }
    } else {
      var a, b :| TwoOf(t, a, b) && key(a) == key(b);
      assert TwoOf(s, a, b) || (a in s && b == x) || (b in s && a == x);
    }
  }

  /** What is collected from elements with different keys has different keys, if it takes theirs over. */
  lemma {:induction false} CollectKeepsKeys<T(!new), U(!new), K(!new)>(s: seq<T>, f: T -> Option<U>,
                                                                       key: T -> K, key': U -> K)
    requires KeysDiffer(s, key) && forall x :: f(x).Some? ==> key'(f(x).value) == key(x)
    ensures KeysDiffer(Collect(s, f), key')
  {
    if s != [] {
      var init, last := s[..|s| - 1], s[|s| - 1];
      assert s == init + [last];
      KeysDifferAppend(init, key, last);
      CollectKeepsKeys(init, f, key, key');
      if f(last).Some? {
        KeysDifferAppend(Collect(init, f), key', f(last).value);
        forall u | u in Collect(init, f) ensures key'(u) != key(last) {
          var x :| x in init && f(x) == Some(u);
          assert key(x) in KeysOf(init, key);
        }
      }
    }
  }
}
