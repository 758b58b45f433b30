/** The array operations the source relies on (`findIndex`, `find`,
    `filter`, `reduce`, a destructuring swap, `splice` + `push`, and the
    `forEach`/`push` grouping into a record), each specified once. */
module Sequences {
  import opened Wrappers

  /** `xs.findIndex(p)`: the first index satisfying `p`, or -1. */
  function IndexWhere<T>(xs: seq<T>, p: T -> bool): (i: int)
    ensures -1 <= i < |xs|
    ensures 0 <= i ==> p(xs[i]) && forall j :: 0 <= j < i ==> !p(xs[j])
    ensures i == -1 <==> forall j :: 0 <= j < |xs| ==> !p(xs[j])
  {
    if xs == [] then -1
    else if p(xs[0]) then 0
    else
      var j := IndexWhere(xs[1..], p);
      if j < 0 then -1 else j + 1
  }

  /** `xs.find(p)`: the first element satisfying `p`, if any. */
  function FindWhere<T>(xs: seq<T>, p: T -> bool): (r: Option<T>)
    ensures r.None? <==> forall j :: 0 <= j < |xs| ==> !p(xs[j])
    ensures r.Some? ==> exists i :: 0 <= i < |xs| && xs[i] == r.value && p(xs[i]) &&
                                    forall j :: 0 <= j < i ==> !p(xs[j])
  {
    var i := IndexWhere(xs, p);
    if i < 0 then None else Some(xs[i])
  }

  /** `xs.filter(p)`: the elements satisfying `p`, each as often as in `xs`. */
  function Filter<T(!new)>(xs: seq<T>, p: T -> bool): (r: seq<T>)
    ensures |r| <= |xs|
    ensures forall x :: x in r <==> x in xs && p(x)
  {
    if xs == [] then []
    else
      (if p(xs[0]) then [xs[0]] else []) + Filter(xs[1..], p)
  }

  /** Filtering a list with a given head: the head's verdict, then the rest. */
  lemma {:induction false} FilterCons<T(!new)>(x: T, xs: seq<T>, p: T -> bool)
    ensures Filter([x] + xs, p) == (if p(x) then [x] else []) + Filter(xs, p)
  {
    assert ([x] + xs)[0] == x && ([x] + xs)[1..] == xs;
  }

  /** `s` can be obtained from `xs` by deleting elements, keeping the order of the rest. */
  ghost predicate SubsequenceOf<T>(s: seq<T>, xs: seq<T>)
    decreases |xs|
  {
    s == [] ||
    (xs != [] && ((s[0] == xs[0] && SubsequenceOf(s[1..], xs[1..])) || SubsequenceOf(s, xs[1..])))
  }

  /** Every sequence is a subsequence of itself. */
  lemma {:induction false} SubsequenceOfSelf<T>(xs: seq<T>)
    ensures SubsequenceOf(xs, xs)
  {
    if xs != [] {
      SubsequenceOfSelf(xs[1..]);
    }
  }

  lemma {:induction false} FilterIsSubsequence<T(!new)>(xs: seq<T>, p: T -> bool)
    ensures SubsequenceOf(Filter(xs, p), xs)
  {
    if xs != [] {
      FilterIsSubsequence(xs[1..], p);
      var r := Filter(xs, p);
      if p(xs[0]) {
        assert r[0] == xs[0] && r[1..] == Filter(xs[1..], p);
      } else {
        assert r == Filter(xs[1..], p);
      }
    }
  }

  /** A subsequence of a subsequence is a subsequence. */
  lemma {:induction false} SubsequenceTrans<T>(a: seq<T>, b: seq<T>, c: seq<T>)
    requires SubsequenceOf(a, b) && SubsequenceOf(b, c)
    ensures SubsequenceOf(a, c)
    decreases |c|
  {
    if a != [] {
      if b[0] == c[0] && SubsequenceOf(b[1..], c[1..]) {
        if a[0] == b[0] && SubsequenceOf(a[1..], b[1..]) {
          SubsequenceTrans(a[1..], b[1..], c[1..]);
        } else {
          SubsequenceTrans(a, b[1..], c[1..]);
        }
      } else {
        SubsequenceTrans(a, b, c[1..]);
      }
    }
  }

  /** Filtering commutes with concatenation: the kept elements keep their order. */
  lemma {:induction false} FilterAppend<T(!new)>(a: seq<T>, b: seq<T>, p: T -> bool)
    ensures Filter(a + b, p) == Filter(a, p) + Filter(b, p)
  {
    if a == [] {
      assert a + b == b;
    } else {
      var ab := a + b;
      assert ab[0] == a[0] && ab[1..] == a[1..] + b;
      FilterAppend(a[1..], b, p);
    }
  }

  /** Two tests that agree everywhere filter alike. */
  lemma {:induction false} FilterCongruent<T(!new)>(xs: seq<T>, p: T -> bool, q: T -> bool)
    requires forall x :: p(x) == q(x)
    ensures Filter(xs, p) == Filter(xs, q)
  {
    if xs != [] {
      FilterCongruent(xs[1..], p, q);
    }
  }

  /** A filter that every element passes returns the sequence unchanged. */
  lemma {:induction false} FilterKeepsAll<T(!new)>(xs: seq<T>, p: T -> bool)
    requires forall j :: 0 <= j < |xs| ==> p(xs[j])
    ensures Filter(xs, p) == xs
  {
    if xs != [] {
      FilterKeepsAll(xs[1..], p);
    }
  }

  /** `xs.reduce((sum, x) => sum + f(x), 0)`, folding from the left. */
  function Sum<T>(xs: seq<T>, f: T -> int): int
  {
    if xs == [] then 0 else Sum(xs[..|xs| - 1], f) + f(xs[|xs| - 1])
  }

  lemma {:induction false} SumAppend<T>(a: seq<T>, b: seq<T>, f: T -> int)
    ensures Sum(a + b, f) == Sum(a, f) + Sum(b, f)
  {
    if b == [] {
      assert a + b == a;
    } else {
      var c := a + b;
      assert c[..|c| - 1] == a + b[..|b| - 1];
      SumAppend(a, b[..|b| - 1], f);
    }
  }

  /** Replacing one element changes the sum by exactly the difference. */
  lemma {:induction false} SumUpdate<T>(xs: seq<T>, i: nat, y: T, f: T -> int)
    requires i < |xs|
    ensures Sum(xs[i := y], f) == Sum(xs, f) - f(xs[i]) + f(y)
  {
    assert xs == xs[..i] + [xs[i]] + xs[i + 1..];
    assert xs[i := y] == xs[..i] + [y] + xs[i + 1..];
    SumAppend(xs[..i] + [xs[i]], xs[i + 1..], f);
    SumAppend(xs[..i] + [y], xs[i + 1..], f);
    SumAppend(xs[..i], [xs[i]], f);
    SumAppend(xs[..i], [y], f);
  }

    /** A sum of terms none of which is negative is not negative. */
  lemma {:induction false} SumNonNegative<T>(xs: seq<T>, f: T -> int)
    requires forall j :: 0 <= j < |xs| ==> f(xs[j]) >= 0
    ensures Sum(xs, f) >= 0
  {
    if xs != [] {
      var init := xs[..|xs| - 1];
      assert forall j :: 0 <= j < |init| ==> init[j] == xs[j];
      SumNonNegative(init, f);
    }
  }

  /** Cutting out one position takes its term out of the sum. */
  lemma {:induction false} SumCut<T>(xs: seq<T>, i: nat, f: T -> int)
    requires i < |xs|
    ensures Sum(xs[..i] + xs[i + 1..], f) == Sum(xs, f) - f(xs[i])
  {
    assert xs == xs[..i] + [xs[i]] + xs[i + 1..];
    SumAppend(xs[..i] + [xs[i]], xs[i + 1..], f);
    SumAppend(xs[..i], [xs[i]], f);
    SumAppend(xs[..i], xs[i + 1..], f);
    assert Sum([xs[i]], f) == f(xs[i]) by {
      assert [xs[i]][..0] == [];
    }
  }

/** The sum splits between the elements a filter keeps and those its complement `q` keeps. */
  lemma {:induction false} SumFilterSplit<T(!new)>(xs: seq<T>, p: T -> bool, q: T -> bool, f: T -> int)
    requires forall x :: q(x) == !p(x)
    ensures Sum(Filter(xs, p), f) + Sum(Filter(xs, q), f) == Sum(xs, f)
  {
    if xs != [] {
      SumFilterSplit(xs[1..], p, q, f);
      SumAppend([xs[0]], xs[1..], f);
      assert [xs[0]] + xs[1..] == xs;
      SumAppend(if p(xs[0]) then [xs[0]] else [], Filter(xs[1..], p), f);
      SumAppend(if q(xs[0]) then [xs[0]] else [], Filter(xs[1..], q), f);
    }
  }

  /** A sum of terms that are all zero is zero. */
  lemma {:induction false} SumZero<T>(xs: seq<T>, f: T -> int)
    requires forall j :: 0 <= j < |xs| ==> f(xs[j]) == 0
    ensures Sum(xs, f) == 0
  {
    if xs != [] {
      SumZero(xs[..|xs| - 1], f);
    }
  }

  /** The destructuring swap `[a[i], a[j]] = [a[j], a[i]]`. */
  function Swap<T>(xs: seq<T>, i: nat, j: nat): (r: seq<T>)
    requires i < |xs| && j < |xs|
    ensures |r| == |xs| && r[i] == xs[j] && r[j] == xs[i]
    ensures forall k :: 0 <= k < |xs| && k != i && k != j ==> r[k] == xs[k]
    ensures multiset(r) == multiset(xs)
  {
    var r := xs[i := xs[j]][j := xs[i]];
    if i == j then r
    else
      assert multiset(xs[i := xs[j]]) == multiset(xs) - multiset{xs[i]} + multiset{xs[j]};
      r
  }

  /** `const [moved] = a.splice(i, 1); a.push(moved)`. */
  function MoveToEnd<T>(xs: seq<T>, i: nat): (r: seq<T>)
    requires i < |xs|
    ensures |r| == |xs| && r[|r| - 1] == xs[i]
    ensures r[..|r| - 1] == xs[..i] + xs[i + 1..]
    ensures multiset(r) == multiset(xs)
  {
    var r := xs[..i] + xs[i + 1..] + [xs[i]];
    assert r[..|r| - 1] == xs[..i] + xs[i + 1..];
    calc {
      multiset(xs);
      { assert xs == xs[..i] + [xs[i]] + xs[i + 1..]; }
      multiset(xs[..i]) + multiset{xs[i]} + multiset(xs[i + 1..]);
      multiset(r);
    }
    r
  }

  /** The record that `forEach(x => (grouped[key(x)] ||= []).push(x))` builds. */
  function GroupBy<T>(xs: seq<T>, keyOf: T -> string): map<string, seq<T>>
  {
    if xs == [] then map[]
    else
      var g := GroupBy(xs[..|xs| - 1], keyOf);
      var x := xs[|xs| - 1];
      var k := keyOf(x);
      g[k := (if k in g then g[k] else []) + [x]]
  }

  /** The test `x => keyOf(x) === k`, named so that lemmas can refer to it. */
  function KeyIs<T>(keyOf: T -> string, k: string): T -> bool
  {
    x => keyOf(x) == k
  }

  /** The elements of `xs` whose key is `k`, in their original order. */
  function Group<T(!new)>(xs: seq<T>, keyOf: T -> string, k: string): seq<T>
  {
    Filter(xs, KeyIs(keyOf, k))
  }

  lemma {:induction false} GroupOfAbsentKey<T(!new)>(xs: seq<T>, keyOf: T -> string, k: string)
    requires forall j :: 0 <= j < |xs| ==> keyOf(xs[j]) != k
    ensures Group(xs, keyOf, k) == []
  {
    if xs != [] {
      GroupOfAbsentKey(xs[1..], keyOf, k);
    }
  }

  /** Appending one element extends its own key's group and no other. */
  lemma {:induction false} GroupAppendOne<T(!new)>(xs: seq<T>, x: T, keyOf: T -> string, k: string)
    ensures Group(xs + [x], keyOf, k) == Group(xs, keyOf, k) + if keyOf(x) == k then [x] else []
  {
    FilterAppend(xs, [x], KeyIs(keyOf, k));
    assert Filter([x], KeyIs(keyOf, k)) == if keyOf(x) == k then [x] else [];
  }

  /** A key has a group exactly when some element has that key. */
  lemma {:induction false} GroupByKeys<T>(xs: seq<T>, keyOf: T -> string, k: string)
    ensures k in GroupBy(xs, keyOf) <==> exists j :: 0 <= j < |xs| && keyOf(xs[j]) == k
  {
    if xs != [] {
      var n := |xs| - 1;
      var init := xs[..n];
      GroupByKeys(init, keyOf, k);
      if exists j :: 0 <= j < |xs| && keyOf(xs[j]) == k {
        var j :| 0 <= j < |xs| && keyOf(xs[j]) == k;
        if j < n {
          assert init[j] == xs[j];
        }
      }
      if exists j :: 0 <= j < |init| && keyOf(init[j]) == k {
        var j :| 0 <= j < |init| && keyOf(init[j]) == k;
        assert xs[j] == init[j];
      }
    }
  }

  /** The grouping is a partition: a key has a group exactly when some element
      has that key, and its group is every such element, in order. */
  lemma {:induction false} GroupByIsPartition<T(!new)>(xs: seq<T>, keyOf: T -> string, k: string)
    ensures k in GroupBy(xs, keyOf) <==> exists j :: 0 <= j < |xs| && keyOf(xs[j]) == k
    ensures k in GroupBy(xs, keyOf) ==> GroupBy(xs, keyOf)[k] == Group(xs, keyOf, k)
  {
    GroupByKeys(xs, keyOf, k);
    if xs != [] {
      var n := |xs| - 1;
      var init, x := xs[..n], xs[n];
      GroupByIsPartition(init, keyOf, k);
      GroupByKeys(init, keyOf, k);
      assert xs == init + [x];
      GroupAppendOne(init, x, keyOf, k);
      if keyOf(x) == k && k !in GroupBy(init, keyOf) {
        GroupOfAbsentKey(init, keyOf, k);
      }
    }
  }

  /** The source's grouping loop, proved to build `GroupBy`. */
  method GroupItems<T>(xs: seq<T>, keyOf: T -> string) returns (grouped: map<string, seq<T>>)
    ensures grouped == GroupBy(xs, keyOf)
  {
    grouped := map[];
    var i := 0;
    while i < |xs|
      invariant 0 <= i <= |xs|
      invariant grouped == GroupBy(xs[..i], keyOf)
    {
      var x := xs[i];
      var k := keyOf(x);
      if k !in grouped {
        grouped := grouped[k := []];
      }
      grouped := grouped[k := grouped[k] + [x]];
      assert xs[..i + 1][..i] == xs[..i];
      i := i + 1;
    }
    assert xs[..|xs|] == xs;
  }
}
