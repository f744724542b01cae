/** Shared vocabulary of the model: optional values, results carrying the
    exceptions the Python scripts raise, and bytes. */
module Prelude {

  type byte = b: int | 0 <= b < 256

  datatype Option<+T> = None | Some(value: T)

  /** The exceptions the scripts can raise, one constructor per kind. */
  datatype Error =
    | SecretNotSet                  // RuntimeError: SIGNING_SECRET is empty
    | FileNotFound(path: string)    // FileNotFoundError for a missing split file
    | JsonDecodeError(path: string) // json.loads on a file that is not JSON
    | TypeMismatch                  // AttributeError / TypeError on a wrongly shaped JSON value
    | KeyMissing(key: string)       // KeyError on d[key]
    | BadIsoDate(text: string)      // ValueError from date.fromisoformat
    | BadInt(text: string)          // ValueError from int() on a string
    | BadDateSplit(text: string)    // ValueError unpacking s.split("-") into three names
    | DateOverflow                  // OverflowError: a date before 0001-01-01
    | BadScheduleEntry(weekday: string) // ValueError: schedule entry neither a string nor null

  datatype Result<+T> = Ok(value: T) | Err(error: Error) {
    predicate IsFailure() { Err? }
    function PropagateFailure<U>(): Result<U>
      requires Err?
    {
      Err(error)
    }
    function Extract(): T
      requires Ok?
    {
      value
    }
  }

  /** Python's max(1, total) for a non-negative total. */
  function AtLeastOne(total: nat): (r: nat)
    ensures r >= 1 && r >= total
    ensures total >= 1 ==> r == total
  {
    if total == 0 then 1 else total
  }

  /** A remainder of a number already below the modulus is the number. */
  lemma ModOfSmall(i: int, m: int)
    requires 0 <= i < m
    ensures i % m == i
  {
  }

  /** `[f(e, i) for i, e in enumerate(xs)]` for an f that may raise: the
      first failure propagates. */
  function MapEnumerate<A, B>(xs: seq<A>, f: (A, nat) -> Result<B>): (r: Result<seq<B>>)
    ensures r.Ok? ==> |r.value| == |xs|
    decreases |xs|
  {
    if xs == [] then Ok([])
    else
      var init :- MapEnumerate(xs[..|xs| - 1], f);
      var last :- f(xs[|xs| - 1], |xs| - 1);
      Ok(init + [last])
  }

  /** Entry i is the first that f rejects. */
  ghost predicate FirstFailure<A, B>(xs: seq<A>, f: (A, nat) -> Result<B>, i: int)
  {
    && 0 <= i < |xs|
    && f(xs[i], i).Err?
    && forall j :: 0 <= j < i ==> f(xs[j], j).Ok?
  }

  lemma {:induction false} MapEnumerateOk<A, B>(xs: seq<A>, f: (A, nat) -> Result<B>)
    ensures MapEnumerate(xs, f).Ok? <==> forall i :: 0 <= i < |xs| ==> f(xs[i], i).Ok?
    decreases |xs|
  {
    if xs != [] {
      var n := |xs| - 1;
      var init := xs[..n];
      MapEnumerateOk(init, f);
      assert forall i :: 0 <= i < n ==> init[i] == xs[i];
    }
  }

  lemma {:induction false} MapEnumerateAt<A, B>(xs: seq<A>, f: (A, nat) -> Result<B>)
    requires MapEnumerate(xs, f).Ok?
    ensures forall i :: 0 <= i < |xs| ==> f(xs[i], i).Ok? && MapEnumerate(xs, f).value[i] == f(xs[i], i).value
    decreases |xs|
  {
    if xs != [] {
      var n := |xs| - 1;
      var init := xs[..n];
      MapEnumerateAt(init, f);
      assert forall i :: 0 <= i < n ==> init[i] == xs[i];
    }
  }

  lemma {:induction false} MapEnumerateError<A, B>(xs: seq<A>, f: (A, nat) -> Result<B>)
    requires MapEnumerate(xs, f).Err?
    ensures exists i :: FirstFailure(xs, f, i) && MapEnumerate(xs, f).error == f(xs[i], i).error
    decreases |xs|
  {
    var n := |xs| - 1;
    var init := xs[..n];
    assert forall i :: 0 <= i < n ==> init[i] == xs[i];
    if MapEnumerate(init, f).Err? {
      MapEnumerateError(init, f);
      var i :| FirstFailure(init, f, i) && MapEnumerate(init, f).error == f(init[i], i).error;
      assert FirstFailure(xs, f, i);
    } else {
      MapEnumerateOk(init, f);
      assert FirstFailure(xs, f, n);
    }
  }

  /** Once a prefix fails, the whole list fails with the same error. */
  lemma {:induction false} MapEnumerateSticky<A, B>(xs: seq<A>, f: (A, nat) -> Result<B>, k: nat)
    requires k <= |xs| && MapEnumerate(xs[..k], f).Err?
    ensures MapEnumerate(xs, f) == MapEnumerate(xs[..k], f)
    decreases |xs|
  {
    if k == |xs| {
      assert xs[..k] == xs;
    } else {
      var init := xs[..|xs| - 1];
      assert init[..k] == xs[..k];
      MapEnumerateSticky(init, f, k);
    }
  }

  /** One more entry that f accepts extends the result by one. */
  lemma MapEnumerateSnoc<A, B>(xs: seq<A>, f: (A, nat) -> Result<B>, k: nat)
    requires k < |xs| && MapEnumerate(xs[..k], f).Ok? && f(xs[k], k).Ok?
    ensures MapEnumerate(xs[..k + 1], f) == Ok(MapEnumerate(xs[..k], f).value + [f(xs[k], k).value])
  {
    assert xs[..k + 1][..k] == xs[..k];
  }

  /** The first entry that f rejects makes the prefix through it fail. */
  lemma MapEnumerateStop<A, B>(xs: seq<A>, f: (A, nat) -> Result<B>, k: nat)
    requires k < |xs| && MapEnumerate(xs[..k], f).Ok? && f(xs[k], k).Err?
    ensures MapEnumerate(xs[..k + 1], f) == Err(f(xs[k], k).error)
  {
    assert xs[..k + 1][..k] == xs[..k];
  }
}
