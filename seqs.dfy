/**
 * The two iterator adaptors the pipelines are built from: `filter` and
 * `collect::<Result<Vec<_>, _>>()`, which stops at the first `Err`.
 */
module Seqs {
  import opened Prelude

  /** The elements of `xs` that satisfy `keep`, in their original order. */
  function Filter<T>(xs: seq<T>, keep: T -> bool): (r: seq<T>)
    ensures |r| <= |xs|
    ensures forall x :: x in r ==> x in xs && keep(x)
    ensures forall x :: x in xs && keep(x) ==> x in r
  {
    if xs == [] then []
    else if keep(xs[0]) then [xs[0]] + Filter(xs[1..], keep)
    else Filter(xs[1..], keep)
  }

  /** Filtering a concatenation filters each part: the kept elements stay in order. */
  lemma {:induction false} FilterAppend<T>(a: seq<T>, b: seq<T>, keep: T -> bool)
    ensures Filter(a + b, keep) == Filter(a, keep) + Filter(b, keep)
    decreases |a|
  {
    if a != [] {
      assert (a + b)[1..] == a[1..] + b;
      FilterAppend(a[1..], b, keep);
    } else {
      assert a + b == b;
    }
  }

  /** Filtering keeps everything exactly when every element satisfies `keep`. */
  lemma {:induction false} FilterKeepsAll<T>(xs: seq<T>, keep: T -> bool)
    requires forall x :: x in xs ==> keep(x)
    ensures Filter(xs, keep) == xs
  {
    if xs != [] {
      assert xs == [xs[0]] + xs[1..];
      FilterKeepsAll(xs[1..], keep);
    }
  }

  /** Two filters in a row keep what satisfies both, in the original order. */
  lemma {:induction false} FilterFilter<T>(xs: seq<T>, p: T -> bool, q: T -> bool, both: T -> bool)
    requires forall x :: both(x) == (p(x) && q(x))
    ensures Filter(Filter(xs, p), q) == Filter(xs, both)
  {
    if xs != [] {
      FilterFilter(xs[1..], p, q, both);
    }
  }

  /** Concatenation is associative. */
  lemma AppendAssoc<T>(a: seq<T>, b: seq<T>, c: seq<T>)
    ensures a + b + c == a + (b + c)
  {
  }

  /** `i` is the first index at which `step` fails. */
  predicate FirstFailureAt<A, B, E>(xs: seq<A>, step: A -> Result<B, E>, i: int)
  {
    0 <= i < |xs| && step(xs[i]).Err? && forall j :: 0 <= j < i ==> step(xs[j]).Ok?
  }

  /**
   * `xs.iter().map(step).collect::<Result<Vec<_>, _>>()`: the successful results
   * in order, or the error of the first element that fails.
   */
  function Collect<A, B, E>(xs: seq<A>, step: A -> Result<B, E>): (r: Result<seq<B>, E>)
    ensures r.Ok? ==> |r.value| == |xs| && forall i :: 0 <= i < |xs| ==> step(xs[i]) == Ok(r.value[i])
    ensures r.Err? ==> exists i :: FirstFailureAt(xs, step, i) && step(xs[i]) == Err(r.error)
  {
    if xs == [] then Ok([])
    else match step(xs[0])
      case Err(e) =>
        assert FirstFailureAt(xs, step, 0);
        Err(e)
      case Ok(y) =>
        match Collect(xs[1..], step)
        case Err(e) =>
          FirstFailureShift(xs, step, e);
          Err(e)
        case Ok(ys) =>
          assert forall i :: 1 <= i < |xs| ==> xs[i] == xs[1..][i - 1];
          Ok([y] + ys)
  }

  /** A first failure in `xs[1..]` after a successful `xs[0]` is a first failure in `xs`. */
  lemma FirstFailureShift<A, B, E>(xs: seq<A>, step: A -> Result<B, E>, e: E)
    requires xs != [] && step(xs[0]).Ok?
    requires exists i :: FirstFailureAt(xs[1..], step, i) && step(xs[1..][i]) == Err(e)
    ensures exists i :: FirstFailureAt(xs, step, i) && step(xs[i]) == Err(e)
  {
    var i :| FirstFailureAt(xs[1..], step, i) && step(xs[1..][i]) == Err(e);
    assert FirstFailureAt(xs, step, i + 1) by {
      forall j | 0 <= j < i + 1 ensures step(xs[j]).Ok? {
        if j > 0 { assert xs[j] == xs[1..][j - 1]; }
      }
    }
  }

  /** Collecting succeeds exactly when no element fails. */
  lemma {:induction false} CollectOkIff<A, B, E>(xs: seq<A>, step: A -> Result<B, E>)
    ensures Collect(xs, step).Ok? <==> forall i :: 0 <= i < |xs| ==> step(xs[i]).Ok?
  {
    if Collect(xs, step).Err? {
      var i :| FirstFailureAt(xs, step, i) && step(xs[i]) == Err(Collect(xs, step).error);
    }
    if xs != [] && step(xs[0]).Ok? {
      CollectOkIff(xs[1..], step);
      assert forall i :: 1 <= i < |xs| ==> xs[i] == xs[1..][i - 1];
    }
  }

  /** One more element: the loop form of `Collect`, used by the loops that push as they go. */
  lemma {:induction false} CollectSnoc<A, B, E>(xs: seq<A>, x: A, step: A -> Result<B, E>)
    ensures Collect(xs + [x], step) ==
      match Collect(xs, step)
      case Err(e) => Err(e)
      case Ok(ys) => (match step(x) case Err(e) => Err(e) case Ok(y) => Ok(ys + [y]))
    decreases |xs|
  {
    if xs == [] {
      assert xs + [x] == [x];
      assert [x][1..] == [];
      assert Collect([x][1..], step) == Ok([]);
      assert Collect(xs, step) == Ok([]);
      match step(x)
      case Err(_) =>
      case Ok(y) => assert [y] + [] == [] + [y];
    } else {
      assert (xs + [x])[0] == xs[0];
      assert (xs + [x])[1..] == xs[1..] + [x];
      CollectSnoc(xs[1..], x, step);
      match step(xs[0])
      case Err(_) =>
      case Ok(y) =>
        match Collect(xs[1..], step)
        case Err(_) =>
        case Ok(ys) =>
          match step(x)
          case Err(_) =>
          case Ok(z) => assert [y] + (ys + [z]) == ([y] + ys) + [z];
    }
  }

  /** When `xs[i]` is the first element that fails, collecting yields its error. */
  lemma CollectFirstFailure<A, B, E>(xs: seq<A>, step: A -> Result<B, E>, i: int)
    requires FirstFailureAt(xs, step, i)
    ensures Collect(xs, step) == Err(step(xs[i]).error)
  {
    CollectOkIff(xs, step);
    var j :| FirstFailureAt(xs, step, j) && step(xs[j]) == Err(Collect(xs, step).error);
    assert j == i;
  }

  /** A loop that has collected `xs[..i]` and succeeds on `xs[i]` has collected `xs[..i + 1]`. */
  lemma CollectPush<A, B, E>(xs: seq<A>, step: A -> Result<B, E>, i: nat, ys: seq<B>, y: B)
    requires i < |xs| && Collect(xs[..i], step) == Ok(ys) && step(xs[i]) == Ok(y)
    ensures Collect(xs[..i + 1], step) == Ok(ys + [y])
  {
    assert xs[..i + 1] == xs[..i] + [xs[i]];
    CollectSnoc(xs[..i], xs[i], step);
  }
}
