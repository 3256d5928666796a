/**
  Option and Result wrappers, the exceptions the parser can raise, and two
  shapes its loops share: "stop at the first exception" and "keep the
  selected records in order".
*/
module Base {

  datatype Option<+T> = None | Some(value: T)

  /** The Python exceptions that escape SiouxParser, one constructor per cause. */
  datatype Error =
    | NotAuthenticated      // RuntimeError: fetching before authenticate()
    | EventHasNoDate        // RuntimeError: __validate_day on None
    | BirthdaySectionFailed // RuntimeError: an entry lies in no birthday section
    | DateFormatMismatch    // ValueError from strptime (bad month, day out of range, ...)
    | IndexOutOfRange       // IndexError: subscript of an empty list or string
    | KeyNotFound           // KeyError: filter_cat[cat], entry['class']
    | MissingLink           // TypeError: a title node without an <a href>
    | AttributeMissing      // AttributeError: append on a date object
    | NotIterable           // TypeError: zip over a date object

  datatype Result<+T> = Ok(value: T) | Err(error: Error)

  function Min(a: nat, b: nat): nat {
    if a <= b then a else b
  }

  /**
    A loop that evaluates `xs` in order and raises at the first failure:
    every value when all succeed, otherwise the error of the first failure.
  */
  function Collect<T>(xs: seq<Result<T>>): (r: Result<seq<T>>)
    ensures r.Ok? <==> forall k :: 0 <= k < |xs| ==> xs[k].Ok?
    ensures r.Ok? ==> |r.value| == |xs| && forall k :: 0 <= k < |xs| ==> r.value[k] == xs[k].value
    ensures r.Err? ==> exists k :: 0 <= k < |xs| && xs[k] == Err(r.error) && forall j :: 0 <= j < k ==> xs[j].Ok?
  {
    if xs == [] then Ok([])
    else
      match Collect(xs[..|xs| - 1])
      case Err(e) => Err(e)
      case Ok(vs) =>
        match xs[|xs| - 1]
        case Err(e) => Err(e)
        case Ok(v) => Ok(vs + [v])
  }

  /** The loop raises the error of the first failure, whatever follows it. */
  lemma CollectFirstError<T>(xs: seq<Result<T>>, i: nat)
    requires i < |xs| && xs[i].Err?
    requires forall j :: 0 <= j < i ==> xs[j].Ok?
    ensures Collect(xs) == Err(xs[i].error)
  {
    var r := Collect(xs);
    var k :| 0 <= k < |xs| && xs[k] == Err(r.error) && forall j :: 0 <= j < k ==> xs[j].Ok?;
    assert k == i;
  }

  /** A failure in a prefix is the failure of the whole loop. */
  lemma CollectPrefixError<T>(xs: seq<Result<T>>, n: nat)
    requires n <= |xs| && Collect(xs[..n]).Err?
    ensures Collect(xs) == Collect(xs[..n])
  {
    var ys := xs[..n];
    var e := Collect(ys).error;
    var k :| 0 <= k < |ys| && ys[k] == Err(e) && forall j :: 0 <= j < k ==> ys[j].Ok?;
    assert forall j :: 0 <= j <= k ==> xs[j] == ys[j];
    CollectFirstError(xs, k);
  }

  /** One more element: its value is appended, or its error raised. */
  lemma CollectSnoc<T>(xs: seq<Result<T>>, x: Result<T>)
    requires Collect(xs).Ok?
    ensures Collect(xs + [x]) == if x.Ok? then Ok(Collect(xs).value + [x.value]) else Err(x.error)
  {
    assert (xs + [x])[..|xs|] == xs;
  }

  /** When every failure in `xs` carries the same error and one exists, collecting fails with it. */
  lemma CollectUniformError<T>(xs: seq<Result<T>>, e: Error, k: nat)
    requires k < |xs| && xs[k].Err?
    requires forall i :: 0 <= i < |xs| && xs[i].Err? ==> xs[i].error == e
    ensures Collect(xs) == Err(e)
  {
  }

  /** A loop over `xs` that has collected the first `k` values takes one more step. */
  lemma CollectStep<T>(xs: seq<Result<T>>, k: nat)
    requires k < |xs| && Collect(xs[..k]).Ok?
    ensures Collect(xs[..k + 1]) == if xs[k].Ok? then Ok(Collect(xs[..k]).value + [xs[k].value]) else Err(xs[k].error)
  {
    assert xs[..k + 1] == xs[..k] + [xs[k]];
    CollectSnoc(xs[..k], xs[k]);
  }

  /** The present values of `xs`, in order. */
  function Somes<T>(xs: seq<Option<T>>): seq<T> {
    if xs == [] then []
    else Somes(xs[..|xs| - 1]) + (match xs[|xs| - 1] case Some(v) => [v] case None => [])
  }

  /** The offsets of the present values of `xs`, in order. */
  function SomeOffsets<T>(xs: seq<Option<T>>): (r: seq<nat>)
    ensures forall j :: 0 <= j < |r| ==> r[j] < |xs|
  {
    if xs == [] then []
    else SomeOffsets(xs[..|xs| - 1]) + (if xs[|xs| - 1].Some? then [|xs| - 1] else [])
  }

  /**
    `Somes(xs)` is exactly the present values of `xs` in their original
    order: its j-th element is the value at the j-th offset, the offsets
    increase strictly, and every present value has its offset among them.
  */
  lemma {:induction false} SomesSelection<T>(xs: seq<Option<T>>)
    ensures |Somes(xs)| == |SomeOffsets(xs)|
    ensures forall j :: 0 <= j < |SomeOffsets(xs)| ==> xs[SomeOffsets(xs)[j]] == Some(Somes(xs)[j])
    ensures forall i, j :: 0 <= i < j < |SomeOffsets(xs)| ==> SomeOffsets(xs)[i] < SomeOffsets(xs)[j]
    ensures forall k :: 0 <= k < |xs| && xs[k].Some? ==> k in SomeOffsets(xs)
  {
    if xs != [] {
      var init := xs[..|xs| - 1];
      SomesSelection(init);
      assert forall k :: 0 <= k < |init| ==> init[k] == xs[k];
    }
  }

  /** When every value is present, `Somes` drops nothing. */
  lemma {:induction false} SomesOfPresent<T>(xs: seq<Option<T>>)
    requires forall k :: 0 <= k < |xs| ==> xs[k].Some?
    ensures |Somes(xs)| == |xs|
    ensures forall k :: 0 <= k < |xs| ==> Somes(xs)[k] == xs[k].value
  {
    if xs != [] {
      SomesOfPresent(xs[..|xs| - 1]);
    }
  }

  /** The first present value is the head of the filtered list. */
  lemma {:induction false} SomesHead<T>(xs: seq<Option<T>>, k: nat)
    requires k < |xs| && xs[k].Some?
    requires forall j :: 0 <= j < k ==> xs[j].None?
    ensures |Somes(xs)| > 0 && Somes(xs)[0] == xs[k].value
    decreases |xs|
  {
    var init := xs[..|xs| - 1];
    if k == |xs| - 1 {
      SomesOfAbsent(init);
    } else {
      SomesHead(init, k);
    }
  }

  /** When no value is present, `Somes` is empty. */
  lemma {:induction false} SomesOfAbsent<T>(xs: seq<Option<T>>)
    requires forall k :: 0 <= k < |xs| ==> xs[k].None?
    ensures Somes(xs) == []
  {
    if xs != [] {
      SomesOfAbsent(xs[..|xs| - 1]);
    }
  }
}
