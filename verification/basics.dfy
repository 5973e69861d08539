/** Shared result types.

    The modelled programs are Python scripts: an operation either returns a
    value or raises an exception (or calls `sys.exit`). `Result` records which
    of the two happened, so that error paths are part of every contract instead
    of being excluded by a precondition.
 */
module Basics {

  /** A value that may be absent (Python `None`, a missing dictionary key). */
  datatype Option<+T> = None | Some(value: T) {
    function GetOr(default: T): T {
      match this
      case Some(v) => v
      case None => default
    }
  }

  /** The Python exception classes the modelled code can raise, plus
      `sys.exit` with its status code. */
  datatype PyError =
    | KeyError
    | IndexError
    | TypeError
    | ValueError
    | AttributeError
    | NameError
    | SyntaxError
    | ZeroDivisionError
    | Exit(code: int)

  /** Either the value an operation returned or the exception it raised. */
  datatype Result<+T> = Ok(value: T) | Raise(error: PyError) {
    predicate IsFailure() {
      Raise?
    }

    function PropagateFailure<U>(): Result<U>
      requires Raise?
    {
      Raise(error)
    }

    function Extract(): T
      requires Ok?
    {
      value
    }
  }

  /** The elements whose test answers `True`, in order. */
  function Passing<T>(xs: seq<T>, test: T -> Result<bool>): (r: seq<T>)
    ensures forall x :: x in r ==> x in xs && test(x) == Ok(true)
    ensures forall i :: 0 <= i < |xs| && test(xs[i]) == Ok(true) ==> xs[i] in r
    decreases |xs|
  {
    if |xs| == 0 then []
    else
      assert forall i :: 1 <= i < |xs| ==> xs[1..][i - 1] == xs[i];
      (if test(xs[0]) == Ok(true) then [xs[0]] else []) + Passing(xs[1..], test)
  }

  /** Filtering distributes over concatenation, so what passes keeps its
      order. */
  lemma {:induction false} PassingAppend<T>(a: seq<T>, b: seq<T>, test: T -> Result<bool>)
    ensures Passing(a + b, test) == Passing(a, test) + Passing(b, test)
    decreases |a|
  {
    if |a| == 0 {
      assert a + b == b;
    } else {
      assert (a + b)[0] == a[0] && (a + b)[1..] == a[1..] + b;
      PassingAppend(a[1..], b, test);
    }
  }

  /** A list comprehension `[x for x in xs if test(x)]` whose test may
      raise: the tests run front to back, the first error propagates, and
      otherwise the passing elements come back in order. */
  function KeepWhere<T>(xs: seq<T>, test: T -> Result<bool>): (r: Result<seq<T>>)
    ensures r.Ok? <==> forall i :: 0 <= i < |xs| ==> test(xs[i]).Ok?
    ensures r.Ok? ==> r.value == Passing(xs, test)
    ensures r.Raise? ==> exists i :: && 0 <= i < |xs|
                                     && test(xs[i]) == Raise(r.error)
                                     && forall j :: 0 <= j < i ==> test(xs[j]).Ok?
    decreases |xs|
  {
    if |xs| == 0 then Ok([])
    else
      var keep :- test(xs[0]);
      var rest :- KeepWhere(xs[1..], test);
      assert forall i :: 1 <= i < |xs| ==> xs[1..][i - 1] == xs[i];
      Ok(if keep then [xs[0]] + rest else rest)
  }

  /** The lists one after the other. */
  function Flatten(lists: seq<seq<string>>): (r: seq<string>)
    ensures forall x :: x in r <==> exists k :: 0 <= k < |lists| && x in lists[k]
  {
    if |lists| == 0 then []
    else
      var rest := Flatten(lists[1..]);
      assert forall k :: 1 <= k < |lists| ==> lists[k] == lists[1..][k - 1];
      lists[0] + rest
  }

  /** Flattening one more list appends it. */
  lemma {:induction false} FlattenSnoc(lists: seq<seq<string>>, last: seq<string>)
    ensures Flatten(lists + [last]) == Flatten(lists) + last
    decreases |lists|
  {
    if |lists| == 0 {
      assert [last][1..] == [];
    } else {
      assert (lists + [last])[1..] == lists[1..] + [last];
      FlattenSnoc(lists[1..], last);
    }
  }

  /** A non-empty sequence is its front followed by its last element. */
  lemma InitLast<T>(s: seq<T>)
    requires |s| > 0
    ensures s[..|s| - 1] + [s[|s| - 1]] == s
  {
  }
}
