/** Option and Result: the values the model returns where the original program
    either finds nothing or raises an exception. */
module Results {

  datatype Option<+T> = None | Some(value: T)

  /** `Err` stands for the exception the original program raises. A Result can be
      used with `:-`, which propagates the first error. */
  datatype Result<+T, +E> = Ok(value: T) | Err(error: E) {

    predicate IsFailure() {
      Err?
    }

    function PropagateFailure<U>(): Result<U, E>
      requires Err?
    {
      Err(error)
    }

    function Extract(): T
      requires Ok?
    {
      value
    }
  }

  /** A loop that stops at the first exception: all values when every step
      succeeds, otherwise the error of the first step that fails. */
  function Collect<T, E>(rs: seq<Result<T, E>>): (r: Result<seq<T>, E>)
    ensures r.Ok? <==> forall i :: 0 <= i < |rs| ==> rs[i].Ok?
    ensures r.Ok? ==> |r.value| == |rs| && forall i :: 0 <= i < |rs| ==> rs[i] == Ok(r.value[i])
    ensures r.Err? ==> exists i :: 0 <= i < |rs| && rs[i] == Err(r.error) && forall j :: 0 <= j < i ==> rs[j].Ok?
    decreases |rs|
  {
    if rs == [] then Ok([])
    else if rs[0].Err? then Err(rs[0].error)
    else
      var rest := Collect(rs[1..]);
      assert forall j :: 1 <= j < |rs| ==> rs[j] == rs[1..][j - 1];
      if rest.Err? then
        ghost var i :| 0 <= i < |rs[1..]| && rs[1..][i] == Err(rest.error) && forall j :: 0 <= j < i ==> rs[1..][j].Ok?;
        assert rs[i + 1] == Err(rest.error);
        Err(rest.error)
      else
        Ok([rs[0].value] + rest.value)
  }

  /** When every step succeeds, the values are collected in order. */
  lemma CollectAllOk<T, E>(rs: seq<Result<T, E>>, vs: seq<T>)
    requires |rs| == |vs| && forall i :: 0 <= i < |rs| ==> rs[i] == Ok(vs[i])
    ensures Collect(rs) == Ok(vs)
  {
    var r := Collect(rs);
    assert r.Ok?;
    assert r.value == vs;
  }
}
