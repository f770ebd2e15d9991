/** Vocabulary shared by every module. */
module Base {

  datatype Option<+T> = None | Some(value: T)

  /** The value a step returns, or the error it throws. */
  datatype Result<+T, +E> = Ok(value: T) | Err(error: E) {
    predicate IsFailure() {
      Err?
    }

    function PropagateFailure<U>(): Result<U, E>
      requires Err?
    {
      Err(error)
    }

    function Extract(): T
      requires Ok?
    {
      value
    }
  }

  /** The outcome of a guard: it passes, or throws. */
  datatype Check<+E> = Pass | Fail(error: E) {
    predicate IsFailure() {
      Fail?
    }

    function PropagateFailure<U>(): Result<U, E>
      requires Fail?
    {
      Err(error)
    }
  }

  /** Throws `error` unless `condition` holds. */
  function Need<E>(condition: bool, error: E): Check<E> {
    if condition then Pass else Fail(error)
  }

  /** A stable identifier. The code only compares identifiers for equality and, as a last tie-break, in order. */
  type Id = int

  /** A canonical UTC timestamp, as its count of milliseconds. */
  type Instant = int

  /** Number.MAX_SAFE_INTEGER. */
  const MAX_SAFE_INTEGER: int := 9007199254740991

  predicate IsSafe(value: int) {
    -MAX_SAFE_INTEGER <= value <= MAX_SAFE_INTEGER
  }

  predicate Distinct<T(==)>(xs: seq<T>) {
    forall i, j :: 0 <= i < j < |xs| ==> xs[i] != xs[j]
  }

  /** Adding a new last element keeps a list free of repetitions exactly when it is not there yet. */
  lemma DistinctSnoc<T>(xs: seq<T>, x: T)
    ensures Distinct(xs + [x]) <==> Distinct(xs) && x !in xs
  {
    var ys := xs + [x];
    assert forall i :: 0 <= i < |xs| ==> ys[i] == xs[i];
    assert ys[|xs|] == x;
  }

  /** A list without repetitions is as long as its set of elements. */
  lemma {:induction false} DistinctSize<T>(xs: seq<T>)
    requires Distinct(xs)
    ensures |set x | x in xs| == |xs|
  {
    if xs != [] {
      var init, last := xs[..|xs| - 1], xs[|xs| - 1];
      assert xs == init + [last];
      DistinctSnoc(init, last);
      DistinctSize(init);
      assert (set x | x in xs) == (set x | x in init) + {last};
    }
  }

  /** Pigeonhole: a repetition-free list inside a set of the same size covers that set. */
  lemma DistinctCovers<T>(xs: seq<T>, all: set<T>)
    requires Distinct(xs) && |xs| == |all|
    requires forall x :: x in xs ==> x in all
    ensures (set x | x in xs) == all
  {
    var s := set x | x in xs;
    DistinctSize(xs);
    SubsetSize(s, all);
  }

  lemma {:induction false} SubsetSize<T>(small: set<T>, big: set<T>)
    requires small <= big && |small| == |big|
    ensures small == big
    decreases big
  {
    if small != big {
      var x :| x in big && x !in small;
      SmallerSubset(small, big - {x});
    }
  }

  lemma {:induction false} SmallerSubset<T>(small: set<T>, big: set<T>)
    requires small <= big
    ensures |small| <= |big|
    decreases small
  {
    if small != {} {
      var x :| x in small;
      SmallerSubset(small - {x}, big - {x});
    }
  }
}
