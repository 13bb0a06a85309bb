/**
 * List operations shared by the components: sums and counts over a projection,
 * filtering, means and extrema, the stable sort that `list.sort`,
 * `Array.prototype.sort` and pandas' `sort_values(kind="stable")` all provide,
 * truncation (`slice(0, n)`, `head(n)`), and grouping by a key in order of
 * first appearance (`groupby(sort=False)`, a `Map` filled in a loop).
 */
module Collections {
  import opened Wrappers

  // ---------------------------------------------------------------------------
  // Sums and counts
  // ---------------------------------------------------------------------------

  /** The sum of `f` over the elements of `xs`. */
  function SumOf<T>(xs: seq<T>, f: T -> real): real {
    if xs == [] then 0.0 else SumOf(xs[..|xs| - 1], f) + f(xs[|xs| - 1])
  }

  /** The integer sum of `f` over the elements of `xs`. */
  function SumInt<T>(xs: seq<T>, f: T -> int): int {
    if xs == [] then 0 else SumInt(xs[..|xs| - 1], f) + f(xs[|xs| - 1])
  }

  /** The number of elements of `xs` that satisfy `p`. */
  function CountOf<T>(xs: seq<T>, p: T -> bool): (n: nat)
    ensures n <= |xs|
  {
    if xs == [] then 0 else CountOf(xs[..|xs| - 1], p) + (if p(xs[|xs| - 1]) then 1 else 0)
  }

  lemma {:induction false} SumOfAppend<T>(a: seq<T>, b: seq<T>, f: T -> real)
    ensures SumOf(a + b, f) == SumOf(a, f) + SumOf(b, f)
    decreases |b|
  {
    if b == [] {
      assert a + b == a;
    } else {
      assert (a + b)[..|a + b| - 1] == a + b[..|b| - 1];
      SumOfAppend(a, b[..|b| - 1], f);
    }
  }

  lemma {:induction false} SumIntAppend<T>(a: seq<T>, b: seq<T>, f: T -> int)
    ensures SumInt(a + b, f) == SumInt(a, f) + SumInt(b, f)
    decreases |b|
  {
    if b == [] {
      assert a + b == a;
    } else {
      assert (a + b)[..|a + b| - 1] == a + b[..|b| - 1];
      SumIntAppend(a, b[..|b| - 1], f);
    }
  }

  lemma {:induction false} CountOfAppend<T>(a: seq<T>, b: seq<T>, p: T -> bool)
    ensures CountOf(a + b, p) == CountOf(a, p) + CountOf(b, p)
    decreases |b|
  {
    if b == [] {
      assert a + b == a;
    } else {
      assert (a + b)[..|a + b| - 1] == a + b[..|b| - 1];
      CountOfAppend(a, b[..|b| - 1], p);
    }
  }

  /** Some element passes exactly when the count is positive. */
  lemma {:induction false} CountOfPositive<T>(xs: seq<T>, p: T -> bool)
    ensures CountOf(xs, p) > 0 <==> exists i :: 0 <= i < |xs| && p(xs[i])
  {
    if xs != [] {
      var init := xs[..|xs| - 1];
      CountOfPositive(init, p);
      assert forall i :: 0 <= i < |init| ==> init[i] == xs[i];
      if CountOf(init, p) > 0 {
        var i :| 0 <= i < |init| && p(init[i]);
        assert p(xs[i]);
      }
    }
  }

  /** Sums do not depend on the order of the elements. */
  lemma {:induction false} SumOfPermutation<T>(a: seq<T>, b: seq<T>, f: T -> real)
    requires multiset(a) == multiset(b)
    ensures SumOf(a, f) == SumOf(b, f)
    decreases |a|
  {
    if a != [] {
      var init, x := a[..|a| - 1], a[|a| - 1];
      var i := PermutationSplit(a, b);
      var pre, post := b[..i], b[i + 1..];
      SumOfPermutation(init, pre + post, f);
      assert a == init + [x];
      assert SumOf(a, f) == SumOf(init, f) + f(x);
      SumOfAppend(pre + [x], post, f);
      SumOfAppend(pre, [x], f);
      SumOfAppend(pre, post, f);
      assert SumOf([x], f) == f(x) by {
        assert [x][..0] == [];
      }
    }
  }

  /** The last element of `a` stands at some index `i` of its permutation `b`; the rest of each is a permutation of the other. */
  lemma PermutationSplit<T>(a: seq<T>, b: seq<T>) returns (i: nat)
    requires a != [] && multiset(a) == multiset(b)
    ensures i < |b| && b[i] == a[|a| - 1]
    ensures b == b[..i] + [b[i]] + b[i + 1..]
    ensures multiset(a[..|a| - 1]) == multiset(b[..i] + b[i + 1..])
  {
    var init, x := a[..|a| - 1], a[|a| - 1];
    assert a == init + [x];
    assert x in multiset(b);
    i :| 0 <= i < |b| && b[i] == x;
    var pre, post := b[..i], b[i + 1..];
    assert b == pre + [x] + post;
    var rest := pre + post;
    assert multiset(b) == multiset(rest) + multiset{x} by {
      assert multiset(b) == multiset(pre) + multiset{x} + multiset(post);
      assert multiset(rest) == multiset(pre) + multiset(post);
    }
    assert multiset(a) == multiset(init) + multiset{x};
    MultisetCancel(multiset(init), multiset(rest), x);
  }

  /** Integer sums do not depend on the order of the elements. */
  lemma {:induction false} SumIntPermutation<T>(a: seq<T>, b: seq<T>, f: T -> int)
    requires multiset(a) == multiset(b)
    ensures SumInt(a, f) == SumInt(b, f)
    decreases |a|
  {
    if a != [] {
      var init, x := a[..|a| - 1], a[|a| - 1];
      var i := PermutationSplit(a, b);
      var pre, post := b[..i], b[i + 1..];
      SumIntPermutation(init, pre + post, f);
      assert a == init + [x];
      assert SumInt(a, f) == SumInt(init, f) + f(x);
      SumIntAppend(pre + [x], post, f);
      SumIntAppend(pre, [x], f);
      SumIntAppend(pre, post, f);
      assert SumInt([x], f) == f(x) by {
        assert [x][..0] == [];
      }
    }
  }

  /** Counting is blind to order. */
  lemma {:induction false} CountOfPermutation<T>(a: seq<T>, b: seq<T>, p: T -> bool)
    requires multiset(a) == multiset(b)
    ensures CountOf(a, p) == CountOf(b, p)
    decreases |a|
  {
    if a != [] {
      var init, x := a[..|a| - 1], a[|a| - 1];
      var i := PermutationSplit(a, b);
      var pre, post := b[..i], b[i + 1..];
      CountOfPermutation(init, pre + post, p);
      CountOfAppend(pre + [x], post, p);
      CountOfAppend(pre, [x], p);
      CountOfAppend(pre, post, p);
      assert CountOf([x], p) == if p(x) then 1 else 0 by {
        assert [x][..0] == [];
      }
    }
  }

  /** Removing the same element from two equal multisets leaves equal multisets. */
  lemma MultisetCancel<T>(m: multiset<T>, n: multiset<T>, x: T)
    requires m + multiset{x} == n + multiset{x}
    ensures m == n
  {
    assert forall y :: m[y] == (m + multiset{x})[y] - multiset{x}[y];
  }

  /** A sum of non-negative terms is non-negative. */
  lemma {:induction false} SumOfNonNegative<T>(xs: seq<T>, f: T -> real)
    requires forall i :: 0 <= i < |xs| ==> f(xs[i]) >= 0.0
    ensures SumOf(xs, f) >= 0.0
  {
    if xs != [] {
      SumOfNonNegative(xs[..|xs| - 1], f);
    }
  }

  /** A sum of non-negative integer terms is non-negative. */
  lemma {:induction false} SumIntNonNegative<T>(xs: seq<T>, f: T -> int)
    requires forall i :: 0 <= i < |xs| ==> f(xs[i]) >= 0
    ensures SumInt(xs, f) >= 0
  {
    if xs != [] {
      SumIntNonNegative(xs[..|xs| - 1], f);
    }
  }

  /** A sum of terms each no larger than the matching term of another is no larger. */
  lemma {:induction false} SumOfMonotone<T>(xs: seq<T>, f: T -> real, g: T -> real)
    requires forall i :: 0 <= i < |xs| ==> f(xs[i]) <= g(xs[i])
    ensures SumOf(xs, f) <= SumOf(xs, g)
  {
    if xs != [] {
      var init := xs[..|xs| - 1];
      assert forall i :: 0 <= i < |init| ==> init[i] == xs[i];
      SumOfMonotone(init, f, g);
    }
  }

  /** Two sums agree when their terms agree one by one. */
  lemma {:induction false} SumOfCorrespond<A, B>(xs: seq<A>, f: A -> real, ys: seq<B>, g: B -> real)
    requires |xs| == |ys| && forall i :: 0 <= i < |xs| ==> f(xs[i]) == g(ys[i])
    ensures SumOf(xs, f) == SumOf(ys, g)
  {
    if xs != [] {
      var n := |xs| - 1;
      assert forall i :: 0 <= i < n ==> xs[..n][i] == xs[i] && ys[..n][i] == ys[i];
      SumOfCorrespond(xs[..n], f, ys[..n], g);
    }
  }

  /** The sum of pointwise sums is the sum of the two sums. */
  lemma {:induction false} SumOfAdd<T>(xs: seq<T>, f: T -> real, g: T -> real, fg: T -> real)
    requires forall i :: 0 <= i < |xs| ==> fg(xs[i]) == f(xs[i]) + g(xs[i])
    ensures SumOf(xs, fg) == SumOf(xs, f) + SumOf(xs, g)
  {
    if xs != [] {
      var init := xs[..|xs| - 1];
      assert forall i :: 0 <= i < |init| ==> init[i] == xs[i];
      SumOfAdd(init, f, g, fg);
    }
  }

  /** Terms that are `c` at an element occurring at most once and 0 elsewhere sum to `c`, or to 0 without it. */
  lemma {:induction false} SumOfIndicator<T>(xs: seq<T>, x0: T, c: real, f: T -> real)
    requires NoDuplicates(xs)
    requires forall i :: 0 <= i < |xs| ==> f(xs[i]) == if xs[i] == x0 then c else 0.0
    ensures SumOf(xs, f) == if x0 in xs then c else 0.0
  {
    if xs != [] {
      var init := xs[..|xs| - 1];
      var last := xs[|xs| - 1];
      assert forall i :: 0 <= i < |init| ==> init[i] == xs[i];
      SumOfIndicator(init, x0, c, f);
      assert xs == init + [last];
      assert forall i :: 0 <= i < |init| ==> init[i] != last;
    }
  }

  /** Adding 1 per element counts the elements. */
  lemma {:induction false} SumOfOnes<T>(xs: seq<T>, f: T -> real)
    requires forall i :: 0 <= i < |xs| ==> f(xs[i]) == 1.0
    ensures SumOf(xs, f) == |xs| as real
  {
    if xs != [] {
      var init := xs[..|xs| - 1];
      assert forall i :: 0 <= i < |init| ==> init[i] == xs[i];
      SumOfOnes(init, f);
    }
  }

  // ---------------------------------------------------------------------------
  // Filtering
  // ---------------------------------------------------------------------------

  /** The elements of `xs` that satisfy `p`, in their order. */
  function Filter<T>(xs: seq<T>, p: T -> bool): (r: seq<T>)
    ensures |r| == CountOf(xs, p)
    ensures forall i :: 0 <= i < |r| ==> p(r[i])
  {
    if xs == [] then []
    else
      var last := xs[|xs| - 1];
      Filter(xs[..|xs| - 1], p) + (if p(last) then [last] else [])
  }

  /** The filtered list is a sub-multiset of the list, and keeps every element that passes. */
  lemma {:induction false} FilterMembers<T>(xs: seq<T>, p: T -> bool)
    ensures multiset(Filter(xs, p)) <= multiset(xs)
    ensures forall i :: 0 <= i < |xs| && p(xs[i]) ==> xs[i] in Filter(xs, p)
  {
    if xs != [] {
      var init := xs[..|xs| - 1];
      var last := xs[|xs| - 1];
      FilterMembers(init, p);
      assert xs == init + [last];
      forall i | 0 <= i < |xs| && p(xs[i])
        ensures xs[i] in Filter(xs, p)
      {
        if i < |init| {
          assert xs[i] == init[i];
        }
      }
    }
  }

  /** An element is kept exactly when it occurs and passes. */
  lemma FilterIn<T>(xs: seq<T>, p: T -> bool)
    ensures forall x :: x in Filter(xs, p) <==> x in xs && p(x)
  {
    FilterMembers(xs, p);
    forall x | x in Filter(xs, p)
      ensures x in xs && p(x)
    {
      assert x in multiset(Filter(xs, p));
      var k :| 0 <= k < |Filter(xs, p)| && Filter(xs, p)[k] == x;
    }
  }

  /** Nothing passes, nothing is kept. */
  lemma {:induction false} FilterNone<T>(xs: seq<T>, p: T -> bool)
    requires forall i :: 0 <= i < |xs| ==> !p(xs[i])
    ensures Filter(xs, p) == []
  {
    if xs != [] {
      var init := xs[..|xs| - 1];
      assert forall i :: 0 <= i < |init| ==> init[i] == xs[i];
      FilterNone(init, p);
    }
  }

  /** Filtering distributes over concatenation. */
  lemma {:induction false} FilterAppend<T>(a: seq<T>, b: seq<T>, p: T -> bool)
    ensures Filter(a + b, p) == Filter(a, p) + Filter(b, p)
    decreases |b|
  {
    if b == [] {
      assert a + b == a;
    } else {
      assert (a + b)[..|a + b| - 1] == a + b[..|b| - 1];
      FilterAppend(a, b[..|b| - 1], p);
    }
  }

  /** Filtering one more element of a list extends the filtered prefix by it when it passes. */
  lemma FilterPrefixStep<T>(xs: seq<T>, i: nat, p: T -> bool)
    requires i < |xs|
    ensures Filter(xs[..i + 1], p) == Filter(xs[..i], p) + if p(xs[i]) then [xs[i]] else []
  {
    assert xs[..i + 1][..i] == xs[..i];
  }

  /** Summing over the elements that pass loses nothing when the others contribute 0. */
  lemma {:induction false} SumOfFilter<T>(xs: seq<T>, p: T -> bool, f: T -> real)
    requires forall i :: 0 <= i < |xs| && !p(xs[i]) ==> f(xs[i]) == 0.0
    ensures SumOf(Filter(xs, p), f) == SumOf(xs, f)
  {
    if xs != [] {
      var init := xs[..|xs| - 1];
      var last := xs[|xs| - 1];
      assert forall i :: 0 <= i < |init| ==> init[i] == xs[i];
      SumOfFilter(init, p, f);
      SumOfAppend(Filter(init, p), if p(last) then [last] else [], f);
      assert SumOf([last], f) == f(last) by {
        assert [last][..0] == [];
      }
    }
  }

  /** The first element kept is the first element that passes. */
  lemma {:induction false} FilterFirst<T>(xs: seq<T>, p: T -> bool, i: nat)
    requires i < |xs| && p(xs[i])
    requires forall j :: 0 <= j < i ==> !p(xs[j])
    ensures Filter(xs, p) != [] && Filter(xs, p)[0] == xs[i]
  {
    assert xs == xs[..i] + [xs[i]] + xs[i + 1..];
    FilterAppend(xs[..i] + [xs[i]], xs[i + 1..], p);
    FilterAppend(xs[..i], [xs[i]], p);
    FilterSingleton(xs[i], p);
    FilterNone(xs[..i], p);
  }

  /** The index of the first element that passes, `|xs|` when none does (`findIndex`). */
  function FirstWhere<T>(xs: seq<T>, p: T -> bool): (i: nat)
    ensures i <= |xs| && forall j :: 0 <= j < i ==> !p(xs[j])
    ensures i < |xs| ==> p(xs[i])
    ensures i == |xs| ==> forall j :: 0 <= j < |xs| ==> !p(xs[j])
  {
    if xs == [] then 0
    else if p(xs[0]) then 0
    else
      var i := FirstWhere(xs[1..], p);
      assert forall j :: 0 < j <= |xs[1..]| ==> xs[j] == xs[1..][j - 1];
      i + 1
  }

  /** Filtering a list whose elements all pass keeps it whole. */
  lemma {:induction false} FilterAll<T>(xs: seq<T>, p: T -> bool)
    requires forall i :: 0 <= i < |xs| ==> p(xs[i])
    ensures Filter(xs, p) == xs
  {
    if xs != [] {
      var init := xs[..|xs| - 1];
      assert forall i :: 0 <= i < |init| ==> init[i] == xs[i];
      FilterAll(init, p);
      assert xs == init + [xs[|xs| - 1]];
    }
  }

  /** Filtering by `p` and then by `q` is filtering by both. */
  lemma {:induction false} FilterFilter<T>(xs: seq<T>, p: T -> bool, q: T -> bool, pq: T -> bool)
    requires forall x :: pq(x) == (p(x) && q(x))
    ensures Filter(Filter(xs, p), q) == Filter(xs, pq)
  {
    if xs != [] {
      var last := xs[|xs| - 1];
      FilterFilter(xs[..|xs| - 1], p, q, pq);
      FilterAppend(Filter(xs[..|xs| - 1], p), if p(last) then [last] else [], q);
      if p(last) {
        assert [last] == [] + [last];
      }
    }
  }

  /** The elements that pass and those that do not make up the list. */
  lemma {:induction false} FilterPartition<T>(xs: seq<T>, p: T -> bool, q: T -> bool)
    requires forall x :: q(x) == !p(x)
    ensures multiset(Filter(xs, p)) + multiset(Filter(xs, q)) == multiset(xs)
  {
    if xs != [] {
      var init, x := xs[..|xs| - 1], xs[|xs| - 1];
      FilterPartition(init, p, q);
      assert xs == init + [x];
      var xp: multiset<T> := if p(x) then multiset{x} else multiset{};
      var xq: multiset<T> := if q(x) then multiset{x} else multiset{};
      FilterSnocMultiset(init, x, p);
      FilterSnocMultiset(init, x, q);
      assert xp + xq == multiset{x};
      MultisetRegroup(multiset(Filter(init, p)), xp, multiset(Filter(init, q)), xq);
      assert multiset(xs) == multiset(init) + multiset{x};
    }
  }

  /** Multiset union regroups freely. */
  lemma MultisetRegroup<T>(a: multiset<T>, x: multiset<T>, b: multiset<T>, y: multiset<T>)
    ensures (a + x) + (b + y) == (a + b) + (x + y)
  {
  }

  /** The multiset of a filter grows by the appended element exactly when it passes. */
  lemma FilterSnocMultiset<T>(xs: seq<T>, x: T, p: T -> bool)
    ensures multiset(Filter(xs + [x], p)) == multiset(Filter(xs, p)) + if p(x) then multiset{x} else multiset{}
  {
    assert (xs + [x])[..|xs|] == xs;
  }

  /** An element that does not pass leaves no trace, wherever it stands. */
  lemma FilterSkips<T>(a: seq<T>, x: T, b: seq<T>, p: T -> bool)
    requires !p(x)
    ensures Filter(a + [x] + b, p) == Filter(a + b, p)
  {
    FilterAppend(a + [x], b, p);
    FilterAppend(a, b, p);
    assert Filter(a + [x], p) == Filter(a, p);
  }

  /** An element whose image does not pass leaves no trace in the filtered map, wherever it stands. */
  lemma MapFilterSkips<A, B>(a: seq<A>, x: A, b: seq<A>, f: A -> B, p: B -> bool)
    requires !p(f(x))
    ensures Filter(MapSeq(a + [x] + b, f), p) == Filter(MapSeq(a + b, f), p)
  {
    MapSeqAppend(a + [x], b, f);
    MapSeqAppend(a, [x], f);
    MapSeqAppend(a, b, f);
    assert MapSeq([x], f) == [f(x)];
    FilterSkips(MapSeq(a, f), f(x), MapSeq(b, f), p);
  }

  /** An element that never passes leaves no trace; one that does is the head. */
  lemma FilterSingleton<T>(x: T, p: T -> bool)
    ensures Filter([x], p) == if p(x) then [x] else []
  {
    assert [x][..0] == [];
  }

  lemma FilterCons<T>(x: T, xs: seq<T>, p: T -> bool)
    ensures Filter([x] + xs, p) == (if p(x) then [x] else []) + Filter(xs, p)
  {
    FilterAppend([x], xs, p);
    FilterSingleton(x, p);
  }

  // ---------------------------------------------------------------------------
  // Batches
  // ---------------------------------------------------------------------------

  /** `xs.map(f)`. */
  function MapSeq<A, B>(xs: seq<A>, f: A -> B): (r: seq<B>)
    ensures |r| == |xs| && forall i :: 0 <= i < |xs| ==> r[i] == f(xs[i])
  {
    seq(|xs|, i requires 0 <= i < |xs| => f(xs[i]))
  }

  /** Mapping a list extended by one element extends the mapped list by its image. */
  lemma MapSeqSnoc<A, B>(xs: seq<A>, i: nat, f: A -> B)
    requires i < |xs|
    ensures MapSeq(xs[..i + 1], f) == MapSeq(xs[..i], f) + [f(xs[i])]
  {
    assert forall j :: 0 <= j < i ==> xs[..i + 1][j] == xs[..i][j];
  }

  lemma MapSeqAppend<A, B>(a: seq<A>, b: seq<A>, f: A -> B)
    ensures MapSeq(a + b, f) == MapSeq(a, f) + MapSeq(b, f)
  {
    assert forall i :: 0 <= i < |a + b| ==> (a + b)[i] == if i < |a| then a[i] else b[i - |a|];
  }

  /** `f(x) > 0`. */
  function Positive<T>(f: T -> real): T -> bool {
    x => f(x) > 0.0
  }

  /** The values of `f` that are `> 0`, in order (`if (v > 0) values.push(v)`). */
  function PositiveValues<T>(xs: seq<T>, f: T -> real): (r: seq<real>)
    ensures forall i :: 0 <= i < |r| ==> r[i] > 0.0
  {
    if xs == [] then []
    else PositiveValues(xs[..|xs| - 1], f) + if f(xs[|xs| - 1]) > 0.0 then [f(xs[|xs| - 1])] else []
  }

  /** Summing one more element of a list adds its value. */
  lemma SumOfPrefixStep<T>(xs: seq<T>, i: nat, f: T -> real)
    requires i < |xs|
    ensures SumOf(xs[..i + 1], f) == SumOf(xs[..i], f) + f(xs[i])
  {
    assert xs[..i + 1][..i] == xs[..i];
  }

  /** One more element of a list adds its value to the positive values when it is positive. */
  lemma PositiveValuesPrefixStep<T>(xs: seq<T>, i: nat, f: T -> real)
    requires i < |xs|
    ensures PositiveValues(xs[..i + 1], f) == PositiveValues(xs[..i], f) + if f(xs[i]) > 0.0 then [f(xs[i])] else []
  {
    assert xs[..i + 1][..i] == xs[..i];
  }

  /** The positive values are the values of the elements whose value is positive. */
  lemma {:induction false} PositiveValuesFilter<T>(xs: seq<T>, f: T -> real)
    ensures PositiveValues(xs, f) == MapSeq(Filter(xs, Positive(f)), f)
  {
    if xs != [] {
      var init := xs[..|xs| - 1];
      var last := xs[|xs| - 1];
      PositiveValuesFilter(init, f);
      assert xs == init + [last];
      FilterAppend(init, [last], Positive(f));
      FilterSingleton(last, Positive(f));
      MapSeqAppend(Filter(init, Positive(f)), Filter([last], Positive(f)), f);
    }
  }

  /** `Array.from(new Set(xs))`: each element once, at its first occurrence. */
  function Distinct<T(==)>(xs: seq<T>): seq<T> {
    if xs == [] then []
    else
      var d := Distinct(xs[..|xs| - 1]);
      if xs[|xs| - 1] in d then d else d + [xs[|xs| - 1]]
  }

  predicate NoDuplicates<T(==)>(xs: seq<T>) {
    forall i, j :: 0 <= i < j < |xs| ==> xs[i] != xs[j]
  }

  /** The set keeps exactly the elements of the list, each once. */
  lemma {:induction false} DistinctMembers<T>(xs: seq<T>)
    ensures NoDuplicates(Distinct(xs))
    ensures forall x :: x in Distinct(xs) <==> x in xs
  {
    if xs != [] {
      var init := xs[..|xs| - 1];
      DistinctMembers(init);
      assert xs == init + [xs[|xs| - 1]];
    }
  }

  /** No duplicates means every element occurs once. */
  lemma {:induction false} NoDuplicatesCount<T>(xs: seq<T>)
    requires NoDuplicates(xs)
    ensures forall x :: multiset(xs)[x] <= 1
  {
    if xs != [] {
      var init := xs[..|xs| - 1];
      assert xs == init + [xs[|xs| - 1]];
      NoDuplicatesCount(init);
      assert xs[|xs| - 1] !in init;
    }
  }

  /** A list in which every element occurs at most once has no duplicates. */
  lemma CountNoDuplicates<T>(xs: seq<T>)
    requires forall x :: multiset(xs)[x] <= 1
    ensures NoDuplicates(xs)
  {
    forall i, j | 0 <= i < j < |xs|
      ensures xs[i] != xs[j]
    {
      var x := xs[i];
      assert xs == xs[..i] + [xs[i]] + xs[i + 1..j] + [xs[j]] + xs[j + 1..];
      assert multiset(xs)[x] >= 1 + multiset([xs[j]])[x];
    }
  }

  /** Reordering keeps a list free of duplicates. */
  lemma PermutationNoDuplicates<T>(a: seq<T>, b: seq<T>)
    requires multiset(a) == multiset(b) && NoDuplicates(a)
    ensures NoDuplicates(b)
  {
    NoDuplicatesCount(a);
    CountNoDuplicates(b);
  }

  /** Each element of a permutation has a position in the original. */
  lemma PermutedIndex<T>(a: seq<T>, b: seq<T>, j: nat) returns (i: nat)
    requires multiset(a) == multiset(b) && j < |b|
    ensures i < |a| && a[i] == b[j]
  {
    assert b[j] in multiset(a);
    i :| 0 <= i < |a| && a[i] == b[j];
  }

  /** The concatenation of the lists, in order. */
  function Flatten<T>(xss: seq<seq<T>>): seq<T> {
    if xss == [] then [] else Flatten(xss[..|xss| - 1]) + xss[|xss| - 1]
  }

  lemma {:induction false} FlattenCons<T>(a: seq<T>, xss: seq<seq<T>>)
    ensures Flatten([a] + xss) == a + Flatten(xss)
    decreases |xss|
  {
    if xss != [] {
      assert ([a] + xss)[..|xss|] == [a] + xss[..|xss| - 1];
      FlattenCons(a, xss[..|xss| - 1]);
    } else {
      assert [a] + xss == [a];
      assert [a][..0] == [];
    }
  }

  lemma {:induction false} FlattenAppend<T>(a: seq<seq<T>>, b: seq<seq<T>>)
    ensures Flatten(a + b) == Flatten(a) + Flatten(b)
    decreases |b|
  {
    if b == [] {
      assert a + b == a;
    } else {
      var init := b[..|b| - 1];
      var last := b[|b| - 1];
      var ab := a + b;
      assert ab[..|ab| - 1] == a + init && ab[|ab| - 1] == last;
      FlattenAppend(a, init);
      assert Flatten(ab) == Flatten(a + init) + last;
      assert Flatten(b) == Flatten(init) + last;
    }
  }

  lemma FlattenSnoc<T>(xss: seq<seq<T>>, xs: seq<T>)
    ensures Flatten(xss + [xs]) == Flatten(xss) + xs
  {
    assert (xss + [xs])[..|xss|] == xss;
  }


  /**
   * `[xs[i:i + n] for i in range(0, len(xs), n)]`: the list cut into consecutive
   * batches of `n` elements, the last one possibly shorter.
   */
  function Chunks<T>(xs: seq<T>, n: nat): (r: seq<seq<T>>)
    requires n > 0
    ensures Flatten(r) == xs
    ensures forall i :: 0 <= i < |r| ==> 0 < |r[i]| <= n
    ensures forall i :: 0 <= i < |r| - 1 ==> |r[i]| == n
    decreases |xs|
  {
    if xs == [] then []
    else if |xs| <= n then
      FlattenCons(xs, []);
      [xs]
    else
      var rest := Chunks(xs[n..], n);
      FlattenCons(xs[..n], rest);
      assert xs[..n] + xs[n..] == xs;
      [xs[..n]] + rest
  }

  // ---------------------------------------------------------------------------
  // Mean, minimum, maximum
  // ---------------------------------------------------------------------------

  /** The arithmetic mean of `f` over `xs`, absent for an empty list. */
  function MeanOf<T>(xs: seq<T>, f: T -> real): (r: Option<real>)
    ensures r.Some? <==> xs != []
    ensures r.Some? ==> r.value * |xs| as real == SumOf(xs, f)
  {
    if xs == [] then None else Some(SumOf(xs, f) / |xs| as real)
  }

  /** The smallest value of `f` over a non-empty list. */
  function MinOf<T>(xs: seq<T>, f: T -> real): (m: real)
    requires xs != []
    ensures forall i :: 0 <= i < |xs| ==> m <= f(xs[i])
    ensures exists i :: 0 <= i < |xs| && m == f(xs[i])
  {
    if |xs| == 1 then f(xs[0])
    else
      var m := MinOf(xs[..|xs| - 1], f);
      var last := f(xs[|xs| - 1]);
      assert forall i :: 0 <= i < |xs| - 1 ==> xs[..|xs| - 1][i] == xs[i];
      if last < m then last else m
  }

  /** The largest value of `f` over a non-empty list. */
  function MaxOf<T>(xs: seq<T>, f: T -> real): (m: real)
    requires xs != []
    ensures forall i :: 0 <= i < |xs| ==> f(xs[i]) <= m
    ensures exists i :: 0 <= i < |xs| && m == f(xs[i])
  {
    if |xs| == 1 then f(xs[0])
    else
      var m := MaxOf(xs[..|xs| - 1], f);
      var last := f(xs[|xs| - 1]);
      assert forall i :: 0 <= i < |xs| - 1 ==> xs[..|xs| - 1][i] == xs[i];
      if last > m then last else m
  }

  /** A sum of values between `lo` and `hi` lies between `n * lo` and `n * hi`. */
  lemma {:induction false} SumOfBounds<T>(xs: seq<T>, f: T -> real, lo: real, hi: real)
    requires forall i :: 0 <= i < |xs| ==> lo <= f(xs[i]) <= hi
    ensures |xs| as real * lo <= SumOf(xs, f) <= |xs| as real * hi
  {
    if xs != [] {
      var init := xs[..|xs| - 1];
      assert forall i :: 0 <= i < |init| ==> init[i] == xs[i];
      SumOfBounds(init, f, lo, hi);
    }
  }

  /** The mean lies between the minimum and the maximum. */
  lemma MeanBetween<T>(xs: seq<T>, f: T -> real)
    requires xs != []
    ensures MinOf(xs, f) <= MeanOf(xs, f).value <= MaxOf(xs, f)
  {
    SumOfBounds(xs, f, MinOf(xs, f), MaxOf(xs, f));
    QuotientBetween(SumOf(xs, f), |xs| as real, MinOf(xs, f), MaxOf(xs, f));
  }

  lemma QuotientBetween(a: real, n: real, lo: real, hi: real)
    requires n > 0.0 && n * lo <= a <= n * hi
    ensures lo <= a / n <= hi
  {
    assert (a / n) * n == a;
  }

  /** JavaScript `xs.slice(0, n)` and pandas `head(n)`: at most the first `n` elements. */
  function Take<T>(xs: seq<T>, n: nat): (r: seq<T>)
    ensures |r| == if n < |xs| then n else |xs|
    ensures r == xs[..|r|]
  {
    if n < |xs| then xs[..n] else xs
  }

  // ---------------------------------------------------------------------------
  // Stable sorting
  // ---------------------------------------------------------------------------

  /** `le(a, b)`: `a` may be placed before `b`. */
  ghost predicate TotalPreorder<T(!new)>(le: (T, T) -> bool) {
    (forall a, b :: le(a, b) || le(b, a)) &&
    (forall a, b, c :: le(a, b) && le(b, c) ==> le(a, c))
  }

  predicate Sorted<T>(xs: seq<T>, le: (T, T) -> bool) {
    forall i, j :: 0 <= i < j < |xs| ==> le(xs[i], xs[j])
  }

  /** Places `x` before the first element it may precede. */
  function Insert<T>(x: T, ys: seq<T>, le: (T, T) -> bool): (r: seq<T>)
    ensures multiset(r) == multiset(ys) + multiset{x}
    ensures |r| == |ys| + 1
  {
    if ys == [] then [x]
    else if le(x, ys[0]) then [x] + ys
    else
      assert ys == [ys[0]] + ys[1..];
      [ys[0]] + Insert(x, ys[1..], le)
  }

  /**
   * Insertion sort.  An element is inserted ahead of every element it ties
   * with, and since elements are inserted from the last to the first, equal
   * elements keep their original order: the sort is stable.
   */
  function Sort<T>(xs: seq<T>, le: (T, T) -> bool): (r: seq<T>)
    ensures multiset(r) == multiset(xs)
    ensures |r| == |xs|
  {
    if xs == [] then []
    else
      assert xs == [xs[0]] + xs[1..];
      Insert(xs[0], Sort(xs[1..], le), le)
  }

  lemma {:induction false} InsertSorted<T(!new)>(x: T, ys: seq<T>, le: (T, T) -> bool)
    requires TotalPreorder(le) && Sorted(ys, le)
    ensures Sorted(Insert(x, ys, le), le)
  {
    if ys != [] && !le(x, ys[0]) {
      InsertSorted(x, ys[1..], le);
      var r := Insert(x, ys, le);
      var tail := Insert(x, ys[1..], le);
      assert multiset(tail) == multiset(ys[1..]) + multiset{x};
      forall j | 0 < j < |r|
        ensures le(ys[0], r[j])
      {
        assert r[j] == tail[j - 1];
        assert r[j] in multiset(tail);
        if r[j] == x {
          assert le(ys[0], x);
        } else {
          assert r[j] in multiset(ys[1..]);
          assert r[j] in ys[1..];
        }
      }
    }
  }

  /** The result of `Sort` is ordered under any total preorder. */
  lemma {:induction false} SortSorted<T(!new)>(xs: seq<T>, le: (T, T) -> bool)
    requires TotalPreorder(le)
    ensures Sorted(Sort(xs, le), le)
  {
    if xs != [] {
      SortSorted(xs[1..], le);
      InsertSorted(xs[0], Sort(xs[1..], le), le);
    }
  }

  /** `same(x, y)`: `x` and `y` tie under `le`, so neither may be moved past the other. */
  lemma {:induction false} InsertFilterTies<T(!new)>(x: T, ys: seq<T>, le: (T, T) -> bool, same: T -> bool)
    requires forall a, b :: same(a) && same(b) ==> le(a, b)
    ensures Filter(Insert(x, ys, le), same) == (if same(x) then [x] else []) + Filter(ys, same)
  {
    if ys == [] {
      FilterSingleton(x, same);
    } else if le(x, ys[0]) {
      FilterCons(x, ys, same);
    } else {
      assert ys == [ys[0]] + ys[1..];
      InsertFilterTies(x, ys[1..], le, same);
      FilterCons(ys[0], Insert(x, ys[1..], le), same);
      FilterCons(ys[0], ys[1..], same);
      assert !same(ys[0]) || !same(x);
    }
  }

  /**
   * Stability: the elements of one tie class, picked out by `same`, appear in
   * the sorted list in the order they had in the input.
   */
  lemma {:induction false} SortStable<T(!new)>(xs: seq<T>, le: (T, T) -> bool, same: T -> bool)
    requires TotalPreorder(le)
    requires forall a, b :: same(a) && same(b) ==> le(a, b)
    ensures Filter(Sort(xs, le), same) == Filter(xs, same)
  {
    if xs != [] {
      var x, tail := xs[0], xs[1..];
      var rest := Sort(tail, le);
      var head := if same(x) then [x] else [];
      assert Sort(xs, le) == Insert(x, rest, le);
      SortStable(tail, le, same);
      InsertFilterTies(x, rest, le, same);
      assert Filter(Sort(xs, le), same) == head + Filter(tail, same);
      assert xs == [x] + tail;
      FilterCons(x, tail, same);
    }
  }

  /** Filtering keeps a sorted list sorted. */
  lemma {:induction false} FilterSorted<T>(xs: seq<T>, le: (T, T) -> bool, p: T -> bool)
    requires Sorted(xs, le)
    ensures Sorted(Filter(xs, p), le)
  {
    if xs != [] {
      var init := xs[..|xs| - 1];
      var last := xs[|xs| - 1];
      assert forall i :: 0 <= i < |init| ==> init[i] == xs[i];
      FilterSorted(init, le, p);
      FilterMembers(init, p);
      var fi := Filter(init, p);
      forall i | 0 <= i < |fi|
        ensures le(fi[i], last)
      {
        assert fi[i] in multiset(init);
        var j :| 0 <= j < |init| && init[j] == fi[i];
      }
    }
  }

  /** The first `n` elements of a sorted list are ordered before each of the rest. */
  lemma TakeSortedPrefix<T>(xs: seq<T>, n: nat, le: (T, T) -> bool)
    requires Sorted(xs, le)
    ensures Sorted(Take(xs, n), le)
    ensures forall i, j :: 0 <= i < |Take(xs, n)| <= j < |xs| ==> le(Take(xs, n)[i], xs[j])
  {
  }

  /**
   * `top` holds `n` of the elements of `xs` (all of them when there are
   * fewer), by decreasing key, and no element left out has a greater key
   * than one that is taken.
   */
  ghost predicate IsTop<T>(top: seq<T>, xs: seq<T>, key: T -> real, n: nat) {
    |top| == (if |xs| < n then |xs| else n) &&
    multiset(top) <= multiset(xs) &&
    (forall j, l :: 0 <= j < l < |top| ==> key(top[j]) >= key(top[l])) &&
    forall x :: x in multiset(xs) - multiset(top) ==> forall j :: 0 <= j < |top| ==> key(x) <= key(top[j])
  }

  /** `xs.sort((a, b) => key(b) - key(a)).slice(0, n)` keeps the top `n` elements by key. */
  lemma TopByKey<T(!new)>(xs: seq<T>, key: T -> real, n: nat)
    ensures IsTop(Take(Sort(xs, ByKeyDesc(key)), n), xs, key, n)
  {
    var sorted := Sort(xs, ByKeyDesc(key));
    ByKeyDescPreorder(key);
    SortSorted(xs, ByKeyDesc(key));
    TakeSortedPrefix(sorted, n, ByKeyDesc(key));
    TopLeftOut(xs, sorted, key, n);
  }

  /** What a cut of the sorted list leaves out has no greater key than what it keeps. */
  lemma TopLeftOut<T>(xs: seq<T>, sorted: seq<T>, key: T -> real, n: nat)
    requires multiset(sorted) == multiset(xs)
    requires forall i, j :: 0 <= i < |Take(sorted, n)| <= j < |sorted| ==> key(Take(sorted, n)[i]) >= key(sorted[j])
    ensures var top := Take(sorted, n);
      multiset(top) <= multiset(xs) &&
      forall x :: x in multiset(xs) - multiset(top) ==> forall j :: 0 <= j < |top| ==> key(x) <= key(top[j])
  {
    var top := Take(sorted, n);
    assert sorted == top + sorted[|top|..];
    assert multiset(sorted) == multiset(top) + multiset(sorted[|top|..]);
    forall x | x in multiset(xs) - multiset(top)
      ensures forall j :: 0 <= j < |top| ==> key(x) <= key(top[j])
    {
      assert x in multiset(sorted[|top|..]);
      var l :| 0 <= l < |sorted[|top|..]| && sorted[|top|..][l] == x;
      assert sorted[|top| + l] == x;
    }
  }

  /** Sorting by decreasing key reorders the list and leaves the keys non-increasing. */
  lemma SortByKeyDesc<T(!new)>(xs: seq<T>, key: T -> real)
    ensures var r := Sort(xs, ByKeyDesc(key));
      multiset(r) == multiset(xs) && forall j, l :: 0 <= j < l < |r| ==> key(r[j]) >= key(r[l])
  {
    ByKeyDescPreorder(key);
    SortSorted(xs, ByKeyDesc(key));
  }

  /** The first element after sorting by decreasing key has the greatest key. */
  lemma SortByKeyDescMax<T(!new)>(xs: seq<T>, key: T -> real)
    requires xs != []
    ensures forall i :: 0 <= i < |xs| ==> key(xs[i]) <= key(Sort(xs, ByKeyDesc(key))[0])
  {
    var sorted := Sort(xs, ByKeyDesc(key));
    SortByKeyDesc(xs, key);
    forall i | 0 <= i < |xs|
      ensures key(xs[i]) <= key(sorted[0])
    {
      assert xs[i] in multiset(sorted);
      var s :| 0 <= s < |sorted| && sorted[s] == xs[i];
    }
  }

  /**
   * The sort being stable, the first element after sorting by decreasing key
   * is the first element of the list with that key.
   */
  lemma SortByKeyDescFirst<T(!new)>(xs: seq<T>, key: T -> real)
    requires xs != []
    ensures var top := Sort(xs, ByKeyDesc(key))[0];
      exists f :: 0 <= f < |xs| && xs[f] == top && forall j :: 0 <= j < f ==> key(xs[j]) != key(top)
  {
    var le := ByKeyDesc(key);
    var sorted := Sort(xs, le);
    var top := sorted[0];
    var same := (x: T) => key(x) == key(top);
    ByKeyDescPreorder(key);
    ByKeyDescTies(key, key(top));
    SortStable(xs, le, same);
    assert top in multiset(xs);
    FirstOfClass(xs, sorted, same);
  }

  /** When `ys` lists the class `same` in the order of `xs` and starts with a member of it, that is the class's first in `xs`. */
  lemma FirstOfClass<T>(xs: seq<T>, ys: seq<T>, same: T -> bool)
    requires ys != [] && same(ys[0]) && ys[0] in xs
    requires Filter(ys, same) == Filter(xs, same)
    ensures exists f :: 0 <= f < |xs| && xs[f] == ys[0] && forall j :: 0 <= j < f ==> !same(xs[j])
  {
    var i :| 0 <= i < |xs| && xs[i] == ys[0];
    var f := FirstWhere(xs, same);
    assert f <= i;
    FilterFirst(xs, same, f);
    FilterFirst(ys, same, 0);
  }

  /** The order "greater key first", used by every "sort descending by a number". */
  function ByKeyDesc<T>(key: T -> real): (le: (T, T) -> bool) {
    (a: T, b: T) => key(a) >= key(b)
  }

  lemma ByKeyDescPreorder<T(!new)>(key: T -> real)
    ensures TotalPreorder(ByKeyDesc(key))
  {
  }

  /** The elements with a given key are one tie class of `ByKeyDesc`. */
  lemma ByKeyDescTies<T(!new)>(key: T -> real, v: real)
    ensures forall a, b :: key(a) == v && key(b) == v ==> ByKeyDesc(key)(a, b)
  {
  }

  // ---------------------------------------------------------------------------
  // Grouping in order of first appearance
  // ---------------------------------------------------------------------------

  /** The distinct keys of `xs`, each at the position of its first appearance. */
  function Keys<T, K(==)>(xs: seq<T>, key: T -> K): (ks: seq<K>)
    ensures forall i, j :: 0 <= i < j < |ks| ==> ks[i] != ks[j]
    ensures forall i :: 0 <= i < |xs| ==> key(xs[i]) in ks
    ensures |ks| <= |xs|
  {
    if xs == [] then []
    else
      var ks := Keys(xs[..|xs| - 1], key);
      var k := key(xs[|xs| - 1]);
      assert forall i :: 0 <= i < |xs| - 1 ==> xs[..|xs| - 1][i] == xs[i];
      if k in ks then ks else ks + [k]
  }

  /** Every key is the key of some element. */
  lemma {:induction false} KeysOccur<T, K>(xs: seq<T>, key: T -> K)
    ensures forall j :: 0 <= j < |Keys(xs, key)| ==> exists i :: 0 <= i < |xs| && key(xs[i]) == Keys(xs, key)[j]
  {
    if xs != [] {
      var init, x := xs[..|xs| - 1], xs[|xs| - 1];
      KeysOccur(init, key);
      assert xs == init + [x];
      KeysSnoc(init, x, key);
      var ks := Keys(xs, key);
      forall j | 0 <= j < |ks|
        ensures exists i :: 0 <= i < |xs| && key(xs[i]) == ks[j]
      {
        if j < |Keys(init, key)| {
          var i :| 0 <= i < |init| && key(init[i]) == Keys(init, key)[j];
          assert xs[i] == init[i];
        } else {
          assert key(xs[|xs| - 1]) == ks[j];
        }
      }
    } else {
      assert Keys(xs, key) == [];
    }
  }

  /** A key at hand is the key of some element, at index `i`. */
  lemma KeyOccurs<T, K>(xs: seq<T>, key: T -> K, k: K) returns (i: nat)
    requires k in Keys(xs, key)
    ensures i < |xs| && key(xs[i]) == k
  {
    KeysOccur(xs, key);
    var j :| 0 <= j < |Keys(xs, key)| && Keys(xs, key)[j] == k;
    i :| 0 <= i < |xs| && key(xs[i]) == Keys(xs, key)[j];
  }

  /** The elements of `xs` whose key is `k`, in their order. */
  function Members<T, K(==)>(xs: seq<T>, key: T -> K, k: K): (r: seq<T>)
    ensures forall i :: 0 <= i < |r| ==> key(r[i]) == k
  {
    Filter(xs, x => key(x) == k)
  }

  /** A group is the list filtered by a predicate: what holds of every filtering holds of it. */
  lemma MembersFilter<T, K>(xs: seq<T>, key: T -> K, k: K) returns (p: T -> bool)
    ensures Members(xs, key, k) == Filter(xs, p)
    ensures forall x :: p(x) <==> key(x) == k
  {
    p := x => key(x) == k;
  }

  /** Appending an element adds its key when it is new. */
  lemma KeysSnoc<T, K>(xs: seq<T>, x: T, key: T -> K)
    ensures Keys(xs + [x], key) == if key(x) in Keys(xs, key) then Keys(xs, key) else Keys(xs, key) + [key(x)]
  {
    assert (xs + [x])[..|xs|] == xs;
  }

  /** Appending an element extends its own group and no other. */
  lemma MembersSnoc<T, K>(xs: seq<T>, x: T, key: T -> K, k: K)
    ensures Members(xs + [x], key, k) == Members(xs, key, k) + if key(x) == k then [x] else []
  {
    assert (xs + [x])[..|xs|] == xs;
  }

  /** Every key of the grouping has at least one member. */
  lemma MembersNonEmpty<T, K>(xs: seq<T>, key: T -> K, k: K)
    requires k in Keys(xs, key)
    ensures Members(xs, key, k) != []
  {
    var i := KeyOccurs(xs, key, k);
    FilterMembers(xs, x => key(x) == k);
    assert xs[i] in Members(xs, key, k);
  }

  /** A key that does not occur has no members. */
  lemma MembersAbsent<T, K>(xs: seq<T>, key: T -> K, k: K)
    requires k !in Keys(xs, key)
    ensures Members(xs, key, k) == []
  {
    FilterNone(xs, x => key(x) == k);
  }

  /** Every element is a member of its own key's group. */
  lemma MembersContain<T, K>(xs: seq<T>, key: T -> K, i: nat)
    requires i < |xs|
    ensures xs[i] in Members(xs, key, key(xs[i]))
  {
    FilterMembers(xs, x => key(x) == key(xs[i]));
  }

  /** The groups of `xs` for the keys `ks`, one after another. */
  function Regrouped<T, K(==)>(xs: seq<T>, key: T -> K, ks: seq<K>): seq<T> {
    if ks == [] then [] else Regrouped(xs, key, ks[..|ks| - 1]) + Members(xs, key, ks[|ks| - 1])
  }

  /** One more element lands in the group of its key, when that key is listed. */
  lemma {:induction false} RegroupedSnoc<T, K>(xs: seq<T>, x: T, key: T -> K, ks: seq<K>)
    requires NoDuplicates(ks)
    ensures multiset(Regrouped(xs + [x], key, ks))
         == multiset(Regrouped(xs, key, ks)) + if key(x) in ks then multiset{x} else multiset{}
  {
    if ks != [] {
      var init, k := ks[..|ks| - 1], ks[|ks| - 1];
      assert ks == init + [k];
      RegroupedSnoc(xs, x, key, init);
      MembersSnoc(xs, x, key, k);
    }
  }

  /** Grouping by key, in order of first appearance, only reorders the list. */
  lemma {:induction false} RegroupedKeys<T, K>(xs: seq<T>, key: T -> K)
    ensures multiset(Regrouped(xs, key, Keys(xs, key))) == multiset(xs)
  {
    if xs != [] {
      var init, x := xs[..|xs| - 1], xs[|xs| - 1];
      assert xs == init + [x];
      RegroupedKeys(init, key);
      KeysSnoc(init, x, key);
      var ks := Keys(init, key);
      RegroupedSnoc(init, x, key, ks);
      if key(x) !in ks {
        var ks' := ks + [key(x)];
        assert ks'[..|ks|] == ks;
        MembersSnoc(init, x, key, key(x));
        MembersAbsent(init, key, key(x));
      }
    }
  }

  /**
   * The first member of a group of the elements that pass `p` is the first
   * element of the whole list that passes and has that key.
   */
  lemma FilteredMembersFirst<T, K>(xs: seq<T>, p: T -> bool, key: T -> K, k: K) returns (f: nat)
    requires k in Keys(Filter(xs, p), key)
    ensures f < |xs| && p(xs[f]) && key(xs[f]) == k
    ensures forall i :: 0 <= i < f ==> !(p(xs[i]) && key(xs[i]) == k)
    ensures Members(Filter(xs, p), key, k) != [] && Members(Filter(xs, p), key, k)[0] == xs[f]
  {
    var pk := (x: T) => p(x) && key(x) == k;
    FilterFilter(xs, p, x => key(x) == k, pk);
    MembersNonEmpty(Filter(xs, p), key, k);
    var m := Members(Filter(xs, p), key, k);
    assert m == Filter(xs, pk) && pk(m[0]);
    FilterMembers(xs, pk);
    assert m[0] in multiset(m);
    assert m[0] in multiset(xs);
    var i :| 0 <= i < |xs| && xs[i] == m[0];
    assert pk(xs[i]);
    f := FirstWhere(xs, pk);
    assert f <= i;
    FilterFirst(xs, pk, f);
  }

  /** `groups` maps each key of `xs`, listed in `ks` in order of first appearance, to its members. */
  ghost predicate GroupsOf<T, K(!new)>(xs: seq<T>, key: T -> K, ks: seq<K>, groups: map<K, seq<T>>) {
    ks == Keys(xs, key) &&
    (forall k :: k in groups <==> k in ks) &&
    forall k :: k in groups ==> groups[k] == Members(xs, key, k)
  }

  /** A grouping is the map from each key to its members. */
  lemma GroupsAsMap<T, K(!new)>(xs: seq<T>, key: T -> K, ks: seq<K>, groups: map<K, seq<T>>)
    requires GroupsOf(xs, key, ks, groups)
    ensures groups == map k | k in Keys(xs, key) :: Members(xs, key, k)
  {
  }

  /** Appending to the group of the new element's key, created empty when missing, keeps the grouping. */
  lemma GroupStep<T, K(!new)>(xs: seq<T>, key: T -> K, x: T, ks: seq<K>, groups: map<K, seq<T>>)
    requires GroupsOf(xs, key, ks, groups)
    ensures GroupsOf(xs + [x], key,
                     if key(x) in groups then ks else ks + [key(x)],
                     groups[key(x) := (if key(x) in groups then groups[key(x)] else []) + [x]])
  {
    KeysSnoc(xs, x, key);
    GroupStepMembers(xs, key, x, ks, groups);
  }

  lemma GroupStepMembers<T, K(!new)>(xs: seq<T>, key: T -> K, x: T, ks: seq<K>, groups: map<K, seq<T>>)
    requires GroupsOf(xs, key, ks, groups)
    ensures var groups' := groups[key(x) := (if key(x) in groups then groups[key(x)] else []) + [x]];
            forall k :: k in groups' ==> groups'[k] == Members(xs + [x], key, k)
  {
    var k0 := key(x);
    var groups' := groups[k0 := (if k0 in groups then groups[k0] else []) + [x]];
    forall k | k in groups'
      ensures groups'[k] == Members(xs + [x], key, k)
    {
      MembersSnoc(xs, x, key, k);
      if k == k0 && k0 !in groups {
        MembersAbsent(xs, key, k0);
      }
    }
  }

  /** Every element lands in the group of its key. */
  lemma GroupsCover<T, K(!new)>(xs: seq<T>, key: T -> K, ks: seq<K>, groups: map<K, seq<T>>)
    requires GroupsOf(xs, key, ks, groups)
    ensures forall i :: 0 <= i < |xs| ==> key(xs[i]) in groups && xs[i] in groups[key(xs[i])]
  {
    forall i | 0 <= i < |xs|
      ensures xs[i] in groups[key(xs[i])]
    {
      MembersContain(xs, key, i);
    }
  }

  /** `g` folded from the left by `f`, starting from its first element. */
  function FoldLeft1<T>(g: seq<T>, f: (T, T) -> T): T
    requires g != []
  {
    if |g| == 1 then g[0] else f(FoldLeft1(g[..|g| - 1], f), g[|g| - 1])
  }

  /**
   * A dictionary filled in order: an element whose key is new is stored under
   * it (and the key listed), one whose key is present is combined by `f` with
   * the stored value.
   */
  function Combine<T, K(==,!new)>(xs: seq<T>, key: T -> K, f: (T, T) -> T): (r: (seq<K>, map<K, T>))
    ensures forall k :: k in r.1 <==> k in r.0
  {
    if xs == [] then ([], map[])
    else
      var (ks, d) := Combine(xs[..|xs| - 1], key, f);
      var x := xs[|xs| - 1];
      var k := key(x);
      if k in d then (ks, d[k := f(d[k], x)]) else (ks + [k], d[k := x])
  }

  /** The keys of the dictionary are listed in order of first appearance. */
  lemma {:induction false} CombineOrder<T, K(!new)>(xs: seq<T>, key: T -> K, f: (T, T) -> T)
    ensures Combine(xs, key, f).0 == Keys(xs, key)
  {
    if xs != [] {
      var init := xs[..|xs| - 1];
      var x := xs[|xs| - 1];
      assert xs == init + [x];
      CombineOrder(init, key, f);
      KeysSnoc(init, x, key);
    }
  }

  /** Each entry of the dictionary is the fold, in order, of the elements with its key. */
  lemma {:induction false} CombineGroups<T, K(!new)>(xs: seq<T>, key: T -> K, f: (T, T) -> T)
    ensures forall k :: k in Combine(xs, key, f).1 ==>
              Members(xs, key, k) != [] && Combine(xs, key, f).1[k] == FoldLeft1(Members(xs, key, k), f)
  {
    if xs != [] {
      var init := xs[..|xs| - 1];
      var x := xs[|xs| - 1];
      assert xs == init + [x];
      CombineGroups(init, key, f);
      CombineOrder(init, key, f);
      CombineSnoc(init, key, f, x);
      var d, d' := Combine(init, key, f).1, Combine(xs, key, f).1;
      forall k | k in d'
        ensures Members(xs, key, k) != [] && d'[k] == FoldLeft1(Members(xs, key, k), f)
      {
        CombineEntry(init, key, f, x, k, d, d');
      }
    }
  }

  lemma CombineSnoc<T, K(!new)>(xs: seq<T>, key: T -> K, f: (T, T) -> T, x: T)
    ensures var d := Combine(xs, key, f).1;
            Combine(xs + [x], key, f).1 == if key(x) in d then d[key(x) := f(d[key(x)], x)] else d[key(x) := x]
  {
    var ys := xs + [x];
    assert ys[..|ys| - 1] == xs && ys[|ys| - 1] == x;
  }

  lemma FoldLeft1Snoc<T>(g: seq<T>, f: (T, T) -> T, x: T)
    requires g != []
    ensures FoldLeft1(g + [x], f) == f(FoldLeft1(g, f), x)
  {
    var h := g + [x];
    assert h[..|h| - 1] == g && h[|h| - 1] == x;
  }

  lemma CombineEntry<T, K(!new)>(init: seq<T>, key: T -> K, f: (T, T) -> T, x: T, k: K, d: map<K, T>, d': map<K, T>)
    requires forall k :: k in d <==> k in Keys(init, key)
    requires forall k :: k in d ==> Members(init, key, k) != [] && d[k] == FoldLeft1(Members(init, key, k), f)
    requires d' == if key(x) in d then d[key(x) := f(d[key(x)], x)] else d[key(x) := x]
    requires k in d'
    ensures Members(init + [x], key, k) != [] && d'[k] == FoldLeft1(Members(init + [x], key, k), f)
  {
    MembersSnoc(init, x, key, k);
    var m := Members(init, key, k);
    var inD := k in d;
    if !inD {
      MembersAbsent(init, key, k);
    }
    CombineStep(m, x, f, inD, if inD then d[k] else x, key(x) == k, d'[k]);
  }

  /** One key of the fold: kept when `x` has another key, extended by `x` otherwise. */
  lemma CombineStep<T>(m: seq<T>, x: T, f: (T, T) -> T, inD: bool, dk: T, isKey: bool, dk': T)
    requires inD ==> m != [] && dk == FoldLeft1(m, f)
    requires !inD ==> m == []
    requires isKey || inD
    requires dk' == if !isKey then dk else if inD then f(dk, x) else x
    ensures (m + if isKey then [x] else []) != []
    ensures dk' == FoldLeft1(m + if isKey then [x] else [], f)
  {
    if !isKey {
      assert m + [] == m;
    } else if inD {
      FoldLeft1Snoc(m, f, x);
    } else {
      assert m + [x] == [x];
    }
  }

  /**
   * Adding up each group's sum, over distinct keys that include every key
   * that occurs, gives the sum over the whole list: the groups partition it.
   */
  lemma {:induction false} SumOfGroups<T, K>(xs: seq<T>, key: T -> K, f: T -> real, ks: seq<K>, g: K -> real)
    requires NoDuplicates(ks) && forall i :: 0 <= i < |xs| ==> key(xs[i]) in ks
    requires forall j :: 0 <= j < |ks| ==> g(ks[j]) == SumOf(Members(xs, key, ks[j]), f)
    ensures SumOf(ks, g) == SumOf(xs, f)
  {
    if xs == [] {
      SumOfBounds(ks, g, 0.0, 0.0);
    } else {
      var init := xs[..|xs| - 1];
      var x := xs[|xs| - 1];
      assert xs == init + [x];
      assert forall i :: 0 <= i < |init| ==> init[i] == xs[i];
      var g0 := (k: K) => SumOf(Members(init, key, k), f);
      SumOfGroups(init, key, f, ks, g0);
      GroupsSnoc(init, x, key, f, ks, g0, g);
    }
  }

  /** Appending `x` to the list adds `f(x)` to the sum of the group sums. */
  lemma GroupsSnoc<T, K>(init: seq<T>, x: T, key: T -> K, f: T -> real, ks: seq<K>, g0: K -> real, g: K -> real)
    requires NoDuplicates(ks) && key(x) in ks
    requires forall j :: 0 <= j < |ks| ==> g0(ks[j]) == SumOf(Members(init, key, ks[j]), f)
    requires forall j :: 0 <= j < |ks| ==> g(ks[j]) == SumOf(Members(init + [x], key, ks[j]), f)
    ensures SumOf(ks, g) == SumOf(ks, g0) + f(x)
  {
    var d := (k: K) => if k == key(x) then f(x) else 0.0;
    forall j | 0 <= j < |ks|
      ensures g(ks[j]) == g0(ks[j]) + d(ks[j])
    {
      GroupSumSnoc(init, x, key, f, ks[j]);
    }
    SumOfAdd(ks, g0, d, g);
    SumOfIndicator(ks, key(x), f(x), d);
  }

  /** Appending `x` adds `f(x)` to the sum of its own group and nothing to the others. */
  lemma GroupSumSnoc<T, K>(init: seq<T>, x: T, key: T -> K, f: T -> real, k: K)
    ensures SumOf(Members(init + [x], key, k), f) == SumOf(Members(init, key, k), f) + if k == key(x) then f(x) else 0.0
  {
    var m := Members(init, key, k);
    MembersSnoc(init, x, key, k);
    if key(x) == k {
      assert (m + [x])[..|m|] == m;
    } else {
      assert Members(init + [x], key, k) == m;
    }
  }

  /** `g` folded from the left by `add`, starting from `a`. */
  function FoldLeft<T, A>(a: A, g: seq<T>, add: (A, T) -> A): A {
    if g == [] then a else add(FoldLeft(a, g[..|g| - 1], add), g[|g| - 1])
  }

  /** `m` maps each key of `done`, listed in `keys` in order of first appearance, to the fold of its members. */
  ghost predicate AccumulatedBy<T, K(!new), A>(done: seq<T>, key: T -> K, zero: K -> A, add: (A, T) -> A,
                                              keys: seq<K>, m: map<K, A>) {
    keys == Keys(done, key) &&
    (forall k :: k in m <==> k in keys) &&
    forall k :: k in m ==> m[k] == FoldLeft(zero(k), Members(done, key, k), add)
  }

  /**
   * A `Map` of records filled in a loop: an element whose key is new first
   * gets that key's initial record, then the element is added into the
   * record of its key.  `keys` lists the keys in insertion order, the order
   * in which a `Map` yields them.
   */
  method AccumulateByKey<T, K(==,!new), A>(xs: seq<T>, key: T -> K, zero: K -> A, add: (A, T) -> A)
    returns (keys: seq<K>, m: map<K, A>)
    ensures AccumulatedBy(xs, key, zero, add, keys, m)
  {
    keys := [];
    m := map[];
    for i := 0 to |xs|
      invariant AccumulatedBy(xs[..i], key, zero, add, keys, m)
    {
      var x := xs[i];
      var k := key(x);
      var record := if k in m then m[k] else zero(k);
      ghost var keys0, m0 := keys, m;
      if k !in m {
        keys := keys + [k];
      }
      m := m[k := add(record, x)];
      AccumulatePrefixStep(xs, i, key, zero, add, keys0, m0, keys, m);
    }
    assert xs[..|xs|] == xs;
  }

  lemma AccumulatePrefixStep<T, K(!new), A>(xs: seq<T>, i: nat, key: T -> K, zero: K -> A, add: (A, T) -> A,
                                             keys: seq<K>, m: map<K, A>, keys': seq<K>, m': map<K, A>)
    requires i < |xs|
    requires AccumulatedBy(xs[..i], key, zero, add, keys, m)
    requires keys' == if key(xs[i]) in m then keys else keys + [key(xs[i])]
    requires m' == m[key(xs[i]) := add(if key(xs[i]) in m then m[key(xs[i])] else zero(key(xs[i])), xs[i])]
    ensures AccumulatedBy(xs[..i + 1], key, zero, add, keys', m')
  {
    AccumulateStep(xs[..i], xs[i], xs[..i + 1], key, zero, add, keys, m, keys', m');
  }

  /** One turn of the loop keeps the records the folds of the elements seen. */
  lemma AccumulateStep<T, K(!new), A>(done: seq<T>, x: T, next: seq<T>, key: T -> K, zero: K -> A, add: (A, T) -> A,
                                       keys: seq<K>, m: map<K, A>, keys': seq<K>, m': map<K, A>)
    requires next == done + [x]
    requires AccumulatedBy(done, key, zero, add, keys, m)
    requires keys' == if key(x) in m then keys else keys + [key(x)]
    requires m' == m[key(x) := add(if key(x) in m then m[key(x)] else zero(key(x)), x)]
    ensures AccumulatedBy(next, key, zero, add, keys', m')
  {
    KeysSnoc(done, x, key);
    if key(x) !in m {
      MembersAbsent(done, key, key(x));
    }
    forall k | k in m'
      ensures m'[k] == FoldLeft(zero(k), Members(done + [x], key, k), add)
    {
      AccumulateEntry(done, x, key, zero, add, m, m', k);
    }
  }

  /** One key of the record after a turn of the loop. */
  lemma AccumulateEntry<T, K, A>(done: seq<T>, x: T, key: T -> K, zero: K -> A, add: (A, T) -> A,
                                 m: map<K, A>, m': map<K, A>, k: K)
    requires forall k :: k in m ==> m[k] == FoldLeft(zero(k), Members(done, key, k), add)
    requires key(x) !in m ==> Members(done, key, key(x)) == []
    requires m' == m[key(x) := add(if key(x) in m then m[key(x)] else zero(key(x)), x)]
    requires k in m'
    ensures m'[k] == FoldLeft(zero(k), Members(done + [x], key, k), add)
  {
    var g := Members(done, key, k);
    MembersSnoc(done, x, key, k);
    if key(x) == k {
      assert (g + [x])[..|g|] == g;
    } else {
      assert Members(done + [x], key, k) == g;
    }
  }

  /** The members of a group keep the order of a sorted list. */
  lemma MembersSorted<T, K>(xs: seq<T>, key: T -> K, k: K, le: (T, T) -> bool)
    requires Sorted(xs, le)
    ensures Sorted(Members(xs, key, k), le)
  {
    FilterSorted(xs, le, x => key(x) == k);
  }
}
