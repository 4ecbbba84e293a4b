/** Option and Result, plus the kinds of exception the modelled code can raise. */
module Wrappers {

  datatype Option<+T> = None | Some(value: T)

  datatype Result<+T, +E> = Success(value: T) | Failure(error: E)

  /** The exceptions of the original program, by the condition that raises them. */
  datatype Exception =
    | FormatError                 // int.Parse: the text is not an optionally signed run of digits
    | OverflowError               // int.Parse: the value does not fit in 32 bits
    | MissingSqlBlock             // single-step reply without an `@...@0|1` block
    | QueryFailed(message: string)   // the data store rejected a query
    | PythonFailed(message: string)  // the sandbox exited non-zero or printed no result
    | EndOfStream                 // a binary reader ran past the end of a file
    | NegativeCapacity            // `new List<T>(count)` with count < 0
    | NegativeArraySize           // `new float[dim]` with dim < 0
    | IndexOutOfRange             // a list was indexed out of range
    | FileMissing(path: string)   // a file that is read does not exist

  /** Applies f to each element in order, as a `foreach` loop whose body can throw:
      the first failure ends the loop and is the result. */
  function MapResult<A, B>(xs: seq<A>, f: A -> Result<B, Exception>): (r: Result<seq<B>, Exception>)
    ensures r.Success? ==> |r.value| == |xs|
  {
    if xs == [] then Success([])
    else
      match f(xs[0])
      case Failure(e) => Failure(e)
      case Success(y) =>
        match MapResult(xs[1..], f)
        case Failure(e) => Failure(e)
        case Success(ys) => Success([y] + ys)
  }

  /** MapResult succeeds exactly when f succeeds on every element, and then holds
      f's values in order. */
  lemma {:induction false} MapResultSuccess<A, B>(xs: seq<A>, f: A -> Result<B, Exception>)
    ensures MapResult(xs, f).Success? <==> forall k :: 0 <= k < |xs| ==> f(xs[k]).Success?
    ensures MapResult(xs, f).Success? ==> forall k :: 0 <= k < |xs| ==> MapResult(xs, f).value[k] == f(xs[k]).value
  {
    if xs != [] {
      MapResultSuccess(xs[1..], f);
      assert forall k :: 0 < k < |xs| ==> xs[k] == xs[1..][k - 1];
    }
  }

  /** A failing MapResult carries the error of the first element on which f fails. */
  lemma {:induction false} MapResultFailure<A, B>(xs: seq<A>, f: A -> Result<B, Exception>)
    requires MapResult(xs, f).Failure?
    ensures exists k :: 0 <= k < |xs| && f(xs[k]).Failure? && MapResult(xs, f).error == f(xs[k]).error
                        && forall j :: 0 <= j < k ==> f(xs[j]).Success?
  {
    if f(xs[0]).Failure? {
      assert 0 < |xs| && f(xs[0]).Failure? && MapResult(xs, f).error == f(xs[0]).error;
    } else {
      MapResultFailure(xs[1..], f);
      var k :| 0 <= k < |xs[1..]| && f(xs[1..][k]).Failure? && MapResult(xs[1..], f).error == f(xs[1..][k]).error
               && forall j :: 0 <= j < k ==> f(xs[1..][j]).Success?;
      assert forall j :: 0 < j < k + 1 ==> xs[j] == xs[1..][j - 1];
      assert f(xs[k + 1]).Failure? && MapResult(xs, f).error == f(xs[k + 1]).error;
    }
  }

  /** The result of MapResult when element i is the first whose f fails. */
  lemma {:induction false} MapResultFirstFailure<A, B>(xs: seq<A>, f: A -> Result<B, Exception>, i: nat)
    requires i < |xs| && f(xs[i]).Failure? && forall j :: 0 <= j < i ==> f(xs[j]).Success?
    ensures MapResult(xs, f) == Failure(f(xs[i]).error)
  {
    if i > 0 {
      assert forall j :: 0 <= j < i - 1 ==> xs[1..][j] == xs[j + 1];
      MapResultFirstFailure(xs[1..], f, i - 1);
    }
  }

  /** MapResult succeeds with ys when f succeeds on every element with ys's elements. */
  lemma {:induction false} MapResultAll<A, B>(xs: seq<A>, f: A -> Result<B, Exception>, ys: seq<B>)
    requires |ys| == |xs| && forall k :: 0 <= k < |xs| ==> f(xs[k]) == Success(ys[k])
    ensures MapResult(xs, f) == Success(ys)
  {
    if xs != [] {
      assert forall k :: 0 <= k < |xs| - 1 ==> xs[1..][k] == xs[k + 1] && ys[1..][k] == ys[k + 1];
      MapResultAll(xs[1..], f, ys[1..]);
      assert [ys[0]] + ys[1..] == ys;
    }
  }

  /** One more element for which f succeeds extends the successful prefix. */
  lemma SuccessPrefixSnoc<A, B>(xs: seq<A>, f: A -> Result<B, Exception>, ys: seq<B>, y: B)
    requires |ys| < |xs| && forall k :: 0 <= k < |ys| ==> f(xs[k]) == Success(ys[k])
    requires f(xs[|ys|]) == Success(y)
    ensures forall k :: 0 <= k < |ys + [y]| ==> f(xs[k]) == Success((ys + [y])[k])
  {
  }
}
