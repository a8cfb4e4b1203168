/** The Python exceptions that the modelled code raises, and a
    failure-compatible Result type that carries them. */
module PyErrors {

  /** Why a `ValueError` was raised. */
  datatype ValueCause =
    /** `load_event_field`: a requested smoothing scale is missing from the first file. */
    | SmoothScaleNotFound(scale: real)
    /** numpy: `out[n, ...] = block` where the block's shape does not broadcast. */
    | CannotBroadcast(srcRows: nat, srcCols: nat, dstRows: nat, dstCols: nat)

  datatype Exception =
    | AssertionError
    | AttributeError(msg: string)
    | KeyError(msg: string)
    | IndexError(msg: string)
    | NameError(msg: string)
    | ValueError(cause: ValueCause)

  /** Either the value a Python call returns or the exception it raises. */
  datatype Result<+T> = Ok(value: T) | Err(error: Exception) {
    predicate IsFailure() { Err? }

    function PropagateFailure<U>(): Result<U>
      requires Err?
    {
      Err(error)
    }

    function Extract(): T
      requires Ok?
    {
      value
    }
  }

  datatype Option<+T> = None | Some(value: T)

  /** Run a sequence of steps in order: all their values, or the error of the
      first step that fails. */
  function Collect<T>(rs: seq<Result<T>>): (r: Result<seq<T>>)
    ensures r.Ok? ==> |r.value| == |rs|
  {
    if rs == [] then Ok([])
    else
      var first :- rs[0];
      var rest :- Collect(rs[1..]);
      Ok([first] + rest)
  }

  /** `Collect` succeeds exactly when every step does, keeps the values in
      order, and otherwise reports the first failure. */
  lemma {:induction false} CollectCharacterised<T>(rs: seq<Result<T>>)
    ensures Collect(rs).Ok? <==> forall i :: 0 <= i < |rs| ==> rs[i].Ok?
    ensures Collect(rs).Ok? ==> forall i :: 0 <= i < |rs| ==> Collect(rs).value[i] == rs[i].value
    ensures Collect(rs).Err? ==>
              exists i :: 0 <= i < |rs| && rs[i] == Err(Collect(rs).error)
                          && forall j :: 0 <= j < i ==> rs[j].Ok?
  {
    if rs != [] {
      var tail := rs[1..];
      CollectCharacterised(tail);
      assert forall i :: 1 <= i < |rs| ==> rs[i] == tail[i - 1];
      var r := Collect(rs);
      if rs[0].Err? {
        assert r == Err(rs[0].error);
      } else if Collect(tail).Err? {
        var i :| 0 <= i < |tail| && tail[i] == Err(Collect(tail).error)
                 && forall j :: 0 <= j < i ==> tail[j].Ok?;
        assert rs[i + 1] == Err(r.error);
        assert forall j :: 0 <= j < i + 1 ==> rs[j].Ok?;
      } else {
        assert r.value == [rs[0].value] + Collect(tail).value;
      }
    }
  }

  /** When every result before position `n` is Ok and the one at `n` is not,
      collecting stops with that error. */
  lemma CollectFirstError<T>(rs: seq<Result<T>>, n: nat)
    requires n < |rs| && rs[n].Err?
    requires forall j :: 0 <= j < n ==> rs[j].Ok?
    ensures Collect(rs) == Err(rs[n].error)
  {
    CollectCharacterised(rs);
    var i :| 0 <= i < |rs| && rs[i] == Err(Collect(rs).error)
             && forall j :: 0 <= j < i ==> rs[j].Ok?;
    assert i == n;
  }
}
