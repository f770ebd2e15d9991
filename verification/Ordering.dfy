/** What the code's calls of Array.prototype.sort and its running totals rely on. */
module Ordering {
  import opened Base

  ghost predicate Total<T(!new)>(leq: (T, T) -> bool) {
    forall x, y :: leq(x, y) || leq(y, x)
  }

  ghost predicate TotalOrder<T(!new)>(leq: (T, T) -> bool) {
    && Total(leq)
    && (forall x, y, z :: leq(x, y) && leq(y, z) ==> leq(x, z))
  }

  /** No two different members of `s` tie. */
  ghost predicate Strict<T(!new)>(leq: (T, T) -> bool, s: seq<T>) {
    forall x, y :: x in s && y in s && leq(x, y) && leq(y, x) ==> x == y
  }

  ghost predicate Sorted<T(!new)>(leq: (T, T) -> bool, s: seq<T>) {
    forall i, j :: 0 <= i < j < |s| ==> leq(s[i], s[j])
  }

  function Insert<T>(leq: (T, T) -> bool, x: T, s: seq<T>): seq<T> {
    if s == [] || leq(x, s[0]) then [x] + s else [s[0]] + Insert(leq, x, s[1..])
  }

  /** A stable sort: among ties the earlier element stays earlier. */
  function Sort<T>(leq: (T, T) -> bool, s: seq<T>): seq<T> {
    if s == [] then [] else Insert(leq, s[0], Sort(leq, s[1..]))
  }

  lemma {:induction false} InsertContents<T>(leq: (T, T) -> bool, x: T, s: seq<T>)
    ensures multiset(Insert(leq, x, s)) == multiset(s) + multiset{x}
  {
    if s == [] || leq(x, s[0]) {
    } else {
      InsertContents(leq, x, s[1..]);
      assert s == [s[0]] + s[1..];
    }
  }

  lemma {:induction false} InsertSorted<T(!new)>(leq: (T, T) -> bool, x: T, s: seq<T>)
    requires TotalOrder(leq) && Sorted(leq, s)
    ensures Sorted(leq, Insert(leq, x, s))
  {
    if s == [] || leq(x, s[0]) {
      var r := [x] + s;
      forall i, j | 0 <= i < j < |r| ensures leq(r[i], r[j]) {
        if i == 0 && j > 1 { assert leq(s[0], s[j - 1]); }
      }
    } else {
      var t := Insert(leq, x, s[1..]);
      InsertSorted(leq, x, s[1..]);
      InsertContents(leq, x, s[1..]);
      var r := [s[0]] + t;
      forall i, j | 0 <= i < j < |r| ensures leq(r[i], r[j]) {
        if i == 0 {
          assert t[j - 1] in multiset(t);
          assert t[j - 1] in s[1..] || t[j - 1] == x;
        }
      }
    }
  }

  lemma {:induction false} SortMultiset<T>(leq: (T, T) -> bool, s: seq<T>)
    ensures multiset(Sort(leq, s)) == multiset(s)
  {
    if s != [] {
      SortMultiset(leq, s[1..]);
      InsertContents(leq, s[0], Sort(leq, s[1..]));
      assert s == [s[0]] + s[1..];
    }
  }

  lemma SortContents<T>(leq: (T, T) -> bool, s: seq<T>)
    ensures multiset(Sort(leq, s)) == multiset(s)
    ensures |Sort(leq, s)| == |s|
    ensures forall x :: x in Sort(leq, s) <==> x in s
  {
    SortMultiset(leq, s);
    SameMembers(Sort(leq, s), s);
  }

  lemma SameMembers<T>(s: seq<T>, t: seq<T>)
    requires multiset(s) == multiset(t)
    ensures |s| == |t| && forall x :: x in s <==> x in t
  {
    assert |multiset(s)| == |multiset(t)|;
    forall x ensures x in s <==> x in t {
      assert x in multiset(s) <==> x in multiset(t);
    }
  }

  lemma {:induction false} SortSorted<T(!new)>(leq: (T, T) -> bool, s: seq<T>)
    requires TotalOrder(leq)
    ensures Sorted(leq, Sort(leq, s))
  {
    if s != [] {
      SortSorted(leq, s[1..]);
      InsertSorted(leq, s[0], Sort(leq, s[1..]));
    }
  }

  /** The first element of a sorted list comes no later than any member of a list with the same contents. */
  lemma SortedHead<T(!new)>(leq: (T, T) -> bool, s: seq<T>, x: T)
    requires Total(leq) && Sorted(leq, s) && x in s
    ensures leq(s[0], x)
  {
  }

  /** A list has only one sorted arrangement when its members do not tie. */
  lemma {:induction false} SortedUnique<T(!new)>(leq: (T, T) -> bool, s: seq<T>, t: seq<T>)
    requires Total(leq) && Sorted(leq, s) && Sorted(leq, t) && multiset(s) == multiset(t)
    requires Strict(leq, s)
    ensures s == t
  {
    assert |multiset(s)| == |multiset(t)|;
    if s != [] {
      assert s[0] in multiset(t) && t[0] in multiset(s);
      SortedHead(leq, s, t[0]);
      SortedHead(leq, t, s[0]);
      assert s[0] == t[0];
      SameTail(s, t);
      SortedUnique(leq, s[1..], t[1..]);
    }
  }

  lemma SameTail<T>(s: seq<T>, t: seq<T>)
    requires s != [] && t != [] && s[0] == t[0] && multiset(s) == multiset(t)
    ensures multiset(s[1..]) == multiset(t[1..])
  {
    assert s == [s[0]] + s[1..] && t == [t[0]] + t[1..];
    assert multiset(s[1..]) == multiset(s) - multiset{s[0]};
  }

  /** Sorting forgets the order it was given. */
  lemma SortPermutation<T(!new)>(leq: (T, T) -> bool, s: seq<T>, t: seq<T>)
    requires TotalOrder(leq) && multiset(s) == multiset(t) && Strict(leq, s)
    ensures Sort(leq, s) == Sort(leq, t)
  {
    SortContents(leq, s);
    SortContents(leq, t);
    SortSorted(leq, s);
    SortSorted(leq, t);
    SortedUnique(leq, Sort(leq, s), Sort(leq, t));
  }

  /** Sorting leaves a sorted list alone. */
  lemma {:induction false} SortOfSorted<T(!new)>(leq: (T, T) -> bool, s: seq<T>)
    requires Sorted(leq, s)
    ensures Sort(leq, s) == s
  {
    if s != [] {
      SortOfSorted(leq, s[1..]);
    }
  }

  // ----- Array.prototype.filter -----

  function Filter<T>(keep: T -> bool, s: seq<T>): seq<T> {
    if s == [] then [] else (if keep(s[0]) then [s[0]] else []) + Filter(keep, s[1..])
  }

  lemma FilterMembers<T>(keep: T -> bool, s: seq<T>)
    ensures forall x :: x in Filter(keep, s) <==> x in s && keep(x)
  {
  }

  lemma {:induction false} FilterAppend<T>(keep: T -> bool, s: seq<T>, t: seq<T>)
    ensures Filter(keep, s + t) == Filter(keep, s) + Filter(keep, t)
  {
    if s == [] {
      assert s + t == t;
    } else {
      FilterAppend(keep, s[1..], t);
      assert (s + t)[0] == s[0] && (s + t)[1..] == s[1..] + t;
      var head := if keep(s[0]) then [s[0]] else [];
      assert head + (Filter(keep, s[1..]) + Filter(keep, t)) == (head + Filter(keep, s[1..])) + Filter(keep, t);
    }
  }

  /** Splits `t` around one occurrence of the first element of `s`. */
  lemma SplitAtHead<T>(s: seq<T>, t: seq<T>) returns (before: seq<T>, after: seq<T>)
    requires s != [] && multiset(s) == multiset(t)
    ensures t == before + [s[0]] + after
    ensures multiset(before + after) == multiset(s[1..])
  {
    var head, rest := s[0], s[1..];
    assert s == [head] + rest;
    assert head in multiset(t);
    var i :| 0 <= i < |t| && t[i] == head;
    before, after := t[..i], t[i + 1..];
    assert t == before + [head] + after;
    TakeOut(before, head, after);
    calc {
      multiset(before + after);
      multiset(t) - multiset{head};
      multiset(s) - multiset{head};
      multiset(rest);
    }
  }

  lemma TakeOut<T>(before: seq<T>, x: T, after: seq<T>)
    ensures multiset(before + [x] + after) == multiset(before + after) + multiset{x}
  {
  }

  lemma FilterMiddle<T>(keep: T -> bool, before: seq<T>, x: T, after: seq<T>)
    ensures multiset(Filter(keep, before + [x] + after)) ==
              multiset(Filter(keep, [x])) + multiset(Filter(keep, before + after))
  {
    FilterAppend(keep, before, after);
    FilterAppend(keep, before + [x], after);
    FilterAppend(keep, before, [x]);
  }

  lemma {:induction false} FilterPermutation<T>(keep: T -> bool, s: seq<T>, t: seq<T>)
    requires multiset(s) == multiset(t)
    ensures multiset(Filter(keep, s)) == multiset(Filter(keep, t))
  {
    if s == [] {
      assert |multiset(t)| == 0;
    } else {
      var before, after := SplitAtHead(s, t);
      FilterPermutation(keep, s[1..], before + after);
      FilterMiddle(keep, before, s[0], after);
      FilterMiddle(keep, [], s[0], s[1..]);
      assert [] + [s[0]] + s[1..] == s && [] + s[1..] == s[1..];
    }
  }

  lemma {:induction false} FilterSorted<T(!new)>(leq: (T, T) -> bool, keep: T -> bool, s: seq<T>)
    requires Sorted(leq, s)
    ensures Sorted(leq, Filter(keep, s))
  {
    if s != [] {
      var rest := Filter(keep, s[1..]);
      FilterSorted(leq, keep, s[1..]);
      FilterMembers(keep, s[1..]);
      var r := Filter(keep, s);
      forall i, j | 0 <= i < j < |r| ensures leq(r[i], r[j]) {
        if keep(s[0]) && i == 0 {
          assert r[j] == rest[j - 1] && rest[j - 1] in s[1..];
        }
      }
    }
  }

  /** Dropping elements before or after sorting makes no difference. */
  lemma SortFilter<T(!new)>(leq: (T, T) -> bool, keep: T -> bool, s: seq<T>)
    requires TotalOrder(leq) && Strict(leq, s)
    ensures Sort(leq, Filter(keep, s)) == Filter(keep, Sort(leq, s))
  {
    SortContents(leq, s);
    SortSorted(leq, s);
    FilterPermutation(keep, s, Sort(leq, s));
    FilterSorted(leq, keep, Sort(leq, s));
    var f := Filter(keep, s);
    FilterMembers(keep, s);
    SortContents(leq, f);
    SortSorted(leq, f);
    SortedUnique(leq, Sort(leq, f), Filter(keep, Sort(leq, s)));
  }

  // ----- lists without repetitions -----

  lemma {:induction false} DistinctMultiset<T>(xs: seq<T>, x: T)
    requires Distinct(xs)
    ensures multiset(xs)[x] == if x in xs then 1 else 0
  {
    if xs != [] {
      var init, last := xs[..|xs| - 1], xs[|xs| - 1];
      assert xs == init + [last];
      DistinctSnoc(init, last);
      DistinctMultiset(init, x);
    }
  }

  lemma SameIdMultiset(xs: seq<Id>, ys: seq<Id>)
    requires Distinct(xs) && Distinct(ys) && forall x :: x in xs <==> x in ys
    ensures multiset(xs) == multiset(ys)
  {
    forall x: Id ensures multiset(xs)[x] == multiset(ys)[x] {
      DistinctMultiset(xs, x);
      DistinctMultiset(ys, x);
    }
  }

  lemma DistinctFromCounts<T>(xs: seq<T>)
    requires forall x :: multiset(xs)[x] <= 1
    ensures Distinct(xs)
  {
    forall i, j | 0 <= i < j < |xs| ensures xs[i] != xs[j] {
      assert xs == xs[..j] + xs[j..];
      assert xs[i] in xs[..j] && xs[j] in xs[j..];
      assert multiset(xs)[xs[i]] == multiset(xs[..j])[xs[i]] + multiset(xs[j..])[xs[i]];
      assert xs[i] in multiset(xs[..j]) && xs[j] in multiset(xs[j..]);
      assert multiset(xs)[xs[i]] <= 1;
    }
  }

  lemma DistinctPermutation<T>(xs: seq<T>, ys: seq<T>)
    requires Distinct(xs) && multiset(xs) == multiset(ys)
    ensures Distinct(ys)
  {
    forall x ensures multiset(ys)[x] <= 1 {
      DistinctMultiset(xs, x);
    }
    DistinctFromCounts(ys);
  }

  lemma {:induction false} FilterDistinct<T>(p: T -> bool, s: seq<T>)
    requires Distinct(s)
    ensures Distinct(Filter(p, s))
  {
    if s != [] {
      FilterDistinct(p, s[1..]);
      FilterMembers(p, s[1..]);
      assert s[0] !in s[1..];
    }
  }

  // ----- running totals -----

  function Sum<T>(f: T -> int, s: seq<T>): int {
    if s == [] then 0 else Sum(f, s[..|s| - 1]) + f(s[|s| - 1])
  }

  lemma SumSnoc<T>(f: T -> int, s: seq<T>, x: T)
    ensures Sum(f, s + [x]) == Sum(f, s) + f(x)
  {
  }

  lemma {:induction false} SumAppend<T>(f: T -> int, s: seq<T>, t: seq<T>)
    ensures Sum(f, s + t) == Sum(f, s) + Sum(f, t)
  {
    if t == [] {
      assert s + t == s;
    } else {
      var init, last := t[..|t| - 1], t[|t| - 1];
      SumAppend(f, s, init);
      SumSnoc(f, s + init, last);
      assert s + t == (s + init) + [last];
    }
  }

  /** A total does not depend on the order of its terms. */
  lemma {:induction false} SumPermutation<T>(f: T -> int, s: seq<T>, t: seq<T>)
    requires multiset(s) == multiset(t)
    ensures Sum(f, s) == Sum(f, t)
  {
    if s == [] {
      assert |multiset(t)| == 0;
    } else {
      var init, last := s[..|s| - 1], s[|s| - 1];
      assert s == init + [last];
      assert last in multiset(t);
      var i :| 0 <= i < |t| && t[i] == last;
      assert t == t[..i] + [last] + t[i + 1..];
      var rest := t[..i] + t[i + 1..];
      assert multiset(rest) == multiset(t) - multiset{last};
      assert multiset(init) == multiset(s) - multiset{last};
      SumPermutation(f, init, rest);
      SumAppend(f, t[..i], t[i + 1..]);
      SumAppend(f, t[..i] + [last], t[i + 1..]);
      SumSnoc(f, t[..i], last);
    }
  }

  lemma {:induction false} SumPlus<T>(f: T -> int, g: T -> int, h: T -> int, s: seq<T>)
    requires forall x :: x in s ==> h(x) == f(x) + g(x)
    ensures Sum(h, s) == Sum(f, s) + Sum(g, s)
  {
    if s != [] {
      SumPlus(f, g, h, s[..|s| - 1]);
    }
  }

  lemma {:induction false} SumEqual<T>(f: T -> int, g: T -> int, s: seq<T>)
    requires forall x :: x in s ==> f(x) == g(x)
    ensures Sum(f, s) == Sum(g, s)
  {
    if s != [] {
      SumEqual(f, g, s[..|s| - 1]);
    }
  }

  lemma {:induction false} SumZero<T>(f: T -> int, s: seq<T>)
    requires forall x :: x in s ==> f(x) == 0
    ensures Sum(f, s) == 0
  {
    if s != [] {
      SumZero(f, s[..|s| - 1]);
    }
  }

  /** Lists of equal terms have equal totals. */
  lemma {:induction false} SumAlike<T, U>(f: T -> int, g: U -> int, xs: seq<T>, ys: seq<U>)
    requires |xs| == |ys| && forall i :: 0 <= i < |xs| ==> f(xs[i]) == g(ys[i])
    ensures Sum(f, xs) == Sum(g, ys)
  {
    if xs != [] {
      SumAlike(f, g, xs[..|xs| - 1], ys[..|ys| - 1]);
    }
  }

  // ----- Array.prototype.flatMap -----

  function Flat<T, U>(f: T -> seq<U>, s: seq<T>): seq<U> {
    if s == [] then [] else Flat(f, s[..|s| - 1]) + f(s[|s| - 1])
  }

  lemma FlatSnoc<T, U>(f: T -> seq<U>, s: seq<T>, x: T)
    ensures Flat(f, s + [x]) == Flat(f, s) + f(x)
  {
  }

  lemma {:induction false} FlatAppend<T, U>(f: T -> seq<U>, s: seq<T>, t: seq<T>)
    ensures Flat(f, s + t) == Flat(f, s) + Flat(f, t)
  {
    if t == [] {
      assert s + t == s;
    } else {
      var init, last := t[..|t| - 1], t[|t| - 1];
      FlatAppend(f, s, init);
      FlatSnoc(f, s + init, last);
      assert s + t == (s + init) + [last];
      assert Flat(f, s) + (Flat(f, init) + f(last)) == (Flat(f, s) + Flat(f, init)) + f(last);
    }
  }

  lemma {:induction false} FlatPermutation<T, U>(f: T -> seq<U>, s: seq<T>, t: seq<T>)
    requires multiset(s) == multiset(t)
    ensures multiset(Flat(f, s)) == multiset(Flat(f, t))
  {
    if s == [] {
      assert |multiset(t)| == 0;
    } else {
      var before, after := SplitAtHead(s, t);
      FlatPermutation(f, s[1..], before + after);
      FlatAppend(f, [s[0]], s[1..]);
      FlatAppend(f, before + [s[0]], after);
      FlatAppend(f, before, [s[0]]);
      FlatAppend(f, before, after);
      assert s == [s[0]] + s[1..];
    }
  }

  lemma {:induction false} SumFlat<T, U>(g: U -> int, f: T -> seq<U>, h: T -> int, s: seq<T>)
    requires forall x :: x in s ==> h(x) == Sum(g, f(x))
    ensures Sum(g, Flat(f, s)) == Sum(h, s)
  {
    if s != [] {
      var init, last := s[..|s| - 1], s[|s| - 1];
      SumFlat(g, f, h, init);
      SumAppend(g, Flat(f, init), f(last));
    }
  }

  // ----- Array.prototype.map -----

  function Map<T, U>(f: T -> U, s: seq<T>): seq<U> {
    seq(|s|, i requires 0 <= i < |s| => f(s[i]))
  }

  lemma {:induction false} MapPermutation<T, U>(f: T -> U, s: seq<T>, t: seq<T>)
    requires multiset(s) == multiset(t)
    ensures multiset(Map(f, s)) == multiset(Map(f, t))
  {
    if s == [] {
      assert |multiset(t)| == 0;
    } else {
      var before, after := SplitAtHead(s, t);
      MapPermutation(f, s[1..], before + after);
      assert Map(f, s) == [f(s[0])] + Map(f, s[1..]);
      assert Map(f, t) == Map(f, before) + [f(s[0])] + Map(f, after);
      assert Map(f, before + after) == Map(f, before) + Map(f, after);
    }
  }

  lemma {:induction false} InsertMap<T, U>(leq: (T, T) -> bool, leq': (U, U) -> bool, f: T -> U, x: T, s: seq<T>)
    requires forall y :: y in s ==> leq'(f(x), f(y)) == leq(x, y)
    ensures Map(f, Insert(leq, x, s)) == Insert(leq', f(x), Map(f, s))
  {
    if s == [] || leq(x, s[0]) {
      assert Map(f, [x] + s) == [f(x)] + Map(f, s);
    } else {
      InsertMap(leq, leq', f, x, s[1..]);
      assert Map(f, [s[0]] + Insert(leq, x, s[1..])) == [f(s[0])] + Map(f, Insert(leq, x, s[1..]));
      assert Map(f, s)[1..] == Map(f, s[1..]);
    }
  }

  lemma SortMember<T>(leq: (T, T) -> bool, s: seq<T>, i: nat)
    requires i < |Sort(leq, s)|
    ensures Sort(leq, s)[i] in s
  {
    SortMultiset(leq, s);
    assert Sort(leq, s)[i] in multiset(Sort(leq, s));
  }

  lemma MapHead<T, U>(f: T -> U, s: seq<T>)
    requires s != []
    ensures Map(f, s)[0] == f(s[0]) && Map(f, s)[1..] == Map(f, s[1..])
  {
  }

  /** Sorting commutes with a map that the order cannot see. */
  lemma {:induction false} SortMap<T, U>(leq: (T, T) -> bool, leq': (U, U) -> bool, f: T -> U, s: seq<T>)
    requires forall x, y :: x in s && y in s ==> leq'(f(x), f(y)) == leq(x, y)
    ensures Map(f, Sort(leq, s)) == Sort(leq', Map(f, s))
  {
    if s != [] {
      var rest := s[1..];
      var sorted := Sort(leq, rest);
      assert forall x :: x in rest ==> x in s;
      SortMap(leq, leq', f, rest);
      SortContents(leq, rest);
      forall i | 0 <= i < |sorted| ensures leq'(f(s[0]), f(sorted[i])) == leq(s[0], sorted[i]) {
        SortMember(leq, rest, i);
      }
      InsertMap(leq, leq', f, s[0], sorted);
      MapHead(f, s);
    }
  }
}
