/** Small value wrappers shared by the model: an optional value, a success-or-failure
    result, and the left-to-right "run a fallible step over a list and concatenate"
    pattern that every loop of the record assembler follows. */
module Wrappers {

  datatype Option<T> = None | Some(value: T)

  datatype Result<T, E> = Ok(value: T) | Err(error: E)

  /** Sequential composition of two outcomes: the first failure wins, otherwise the
      outputs are concatenated. */
  function Then<U, E>(a: Result<seq<U>, E>, b: Result<seq<U>, E>): (r: Result<seq<U>, E>)
    ensures r.Ok? <==> a.Ok? && b.Ok?
    ensures r.Ok? ==> r.value == a.value + b.value
    ensures a.Err? ==> r == a
  {
    match a
    case Err(e) => Err(e)
    case Ok(x) =>
      match b
      case Err(e) => Err(e)
      case Ok(y) => Ok(x + y)
  }

  /** Composition is associative, so a loop may extend what it has produced step by step. */
  lemma ThenAssoc<U, E>(a: Result<seq<U>, E>, b: Result<seq<U>, E>, c: Result<seq<U>, E>)
    ensures Then(Then(a, b), c) == Then(a, Then(b, c))
  {
    if a.Ok? && b.Ok? && c.Ok? {
      assert (a.value + b.value) + c.value == a.value + (b.value + c.value);
    }
  }

  /** Runs `f` over `xs` from first to last, appending each output to what was produced
      so far; a failing step ends the run with its error. This is what a Python loop
      that appends to a list and may raise computes. */
  function FlatMap<T, U, E>(xs: seq<T>, f: T -> Result<seq<U>, E>): (r: Result<seq<U>, E>)
    ensures r.Ok? <==> forall i :: 0 <= i < |xs| ==> f(xs[i]).Ok?
    decreases |xs|
  {
    if |xs| == 0 then Ok([])
    else Then(FlatMap(xs[..|xs| - 1], f), f(xs[|xs| - 1]))
  }

  /** One more step of a run over a prefix. */
  lemma FlatMapStep<T, U, E>(xs: seq<T>, n: nat, f: T -> Result<seq<U>, E>)
    requires n < |xs|
    ensures FlatMap(xs[..n + 1], f) == Then(FlatMap(xs[..n], f), f(xs[n]))
  {
    assert xs[..n + 1][..n] == xs[..n];
  }

  /** FlatMap distributes over concatenation of its input. */
  lemma {:induction false} FlatMapAppend<T, U, E>(xs: seq<T>, ys: seq<T>, f: T -> Result<seq<U>, E>)
    ensures FlatMap(xs + ys, f) == Then(FlatMap(xs, f), FlatMap(ys, f))
    decreases |ys|
  {
    if |ys| == 0 {
      assert xs + ys == xs;
      match FlatMap(xs, f)
      case Err(e) =>
      case Ok(v) => assert v + [] == v;
    } else {
      var ys' := ys[..|ys| - 1];
      assert (xs + ys)[..|xs + ys| - 1] == xs + ys';
      assert (xs + ys)[|xs + ys| - 1] == ys[|ys| - 1];
      FlatMapAppend(xs, ys', f);
      match FlatMap(xs, f)
      case Err(e) =>
      case Ok(a) =>
        match FlatMap(ys', f)
        case Err(e) =>
        case Ok(b) =>
          match f(ys[|ys| - 1])
          case Err(e) =>
          case Ok(c) => assert (a + b) + c == a + (b + c);
    }
  }

  /** A run of one element is that element's step. */
  lemma FlatMapSingle<T, U, E>(x: T, f: T -> Result<seq<U>, E>)
    ensures FlatMap([x], f) == f(x)
  {
    assert [x][..0] == [];
    match f(x)
    case Err(e) =>
    case Ok(v) => assert [] + v == v;
  }

  /** Once a prefix has failed, the whole run fails with the same error: later steps
      are never reached. */
  lemma {:induction false} FlatMapPrefixError<T, U, E>(xs: seq<T>, n: nat, f: T -> Result<seq<U>, E>)
    requires n <= |xs|
    requires FlatMap(xs[..n], f).Err?
    ensures FlatMap(xs, f) == FlatMap(xs[..n], f)
    decreases |xs| - n
  {
    if n < |xs| {
      assert xs[..n + 1][..n] == xs[..n];
      FlatMapPrefixError(xs, n + 1, f);
    } else {
      assert xs[..n] == xs;
    }
  }

  /** A failed run fails with the error of its first failing step: every earlier step
      succeeded. */
  lemma {:induction false} FlatMapFirstError<T, U, E>(xs: seq<T>, f: T -> Result<seq<U>, E>) returns (i: nat)
    requires FlatMap(xs, f).Err?
    ensures i < |xs| && f(xs[i]).Err? && FlatMap(xs, f) == f(xs[i])
    ensures forall j :: 0 <= j < i ==> f(xs[j]).Ok?
    decreases |xs|
  {
    var xs' := xs[..|xs| - 1];
    if FlatMap(xs', f).Err? {
      i := FlatMapFirstError(xs', f);
      assert xs'[i] == xs[i];
      assert forall j :: 0 <= j < i ==> xs'[j] == xs[j];
    } else {
      i := |xs| - 1;
      assert forall j :: 0 <= j < i ==> xs'[j] == xs[j];
    }
  }

  /** When every step yields exactly one element, a successful run yields one element
      per input, in input order. */
  lemma {:induction false} FlatMapSingletons<T, U, E>(xs: seq<T>, f: T -> Result<seq<U>, E>)
    requires forall i :: 0 <= i < |xs| && f(xs[i]).Ok? ==> |f(xs[i]).value| == 1
    requires FlatMap(xs, f).Ok?
    ensures |FlatMap(xs, f).value| == |xs|
    ensures forall i :: 0 <= i < |xs| ==> FlatMap(xs, f).value[i] == f(xs[i]).value[0]
    decreases |xs|
  {
    if |xs| > 0 {
      var xs' := xs[..|xs| - 1];
      assert forall i :: 0 <= i < |xs'| ==> xs'[i] == xs[i];
      FlatMapSingletons(xs', f);
    }
  }

  /** Two steps that agree on every input give the same run. */
  lemma {:induction false} FlatMapAgree<T, U, E>(xs: seq<T>, f: T -> Result<seq<U>, E>, g: T -> Result<seq<U>, E>)
    requires forall i :: 0 <= i < |xs| ==> f(xs[i]) == g(xs[i])
    ensures FlatMap(xs, f) == FlatMap(xs, g)
    decreases |xs|
  {
    if |xs| > 0 {
      var xs' := xs[..|xs| - 1];
      assert forall i :: 0 <= i < |xs'| ==> xs'[i] == xs[i];
      FlatMapAgree(xs', f, g);
    }
  }
}
