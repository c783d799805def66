/** The failure-compatible results every other module shares. */
module Wrappers {
  datatype Option<+T> = None | Some(value: T) {
    predicate IsFailure() { None? }

    function PropagateFailure<U>(): Option<U>
      requires None?
    {
      None
    }

    function Extract(): T
      requires Some?
    {
      value
    }
  }

  /** A raised exception becomes `Err`; a returned value becomes `Ok`. */
  datatype Result<+T, +E> = Ok(value: T) | Err(error: E) {
    predicate IsFailure() { Err? }

    function PropagateFailure<U>(): Result<U, E>
      requires Err?
    {
      Err(error)
    }

    function Extract(): T
      requires Ok?
    {
      value
    }
  }

  /** A loop that raises at the first failing element and otherwise collects every value. */
  function Sequence<T, E>(results: seq<Result<T, E>>): Result<seq<T>, E> {
    if results == [] then Ok([])
    else
      var first :- results[0];
      var rest :- Sequence(results[1..]);
      Ok([first] + rest)
  }

  ghost predicate AllOk<T, E>(results: seq<Result<T, E>>) {
    forall i :: 0 <= i < |results| ==> results[i].Ok?
  }

  lemma {:induction false} SequenceOkIff<T, E>(results: seq<Result<T, E>>)
    ensures Sequence(results).Ok? <==> AllOk(results)
    ensures Sequence(results).Ok? ==>
              && |Sequence(results).value| == |results|
              && forall i :: 0 <= i < |results| ==> results[i] == Ok(Sequence(results).value[i])
  {
    if results != [] {
      SequenceOkIff(results[1..]);
      if results[0].Ok? && AllOk(results[1..]) {
        forall i | 0 <= i < |results| ensures results[i].Ok? {
          assert i > 0 ==> results[i] == results[1..][i - 1];
        }
      }
      if AllOk(results) {
        forall i | 0 <= i < |results[1..]| ensures results[1..][i].Ok? {
          assert results[1..][i] == results[i + 1];
        }
      }
    }
  }

  lemma SequenceIs<T, E>(results: seq<Result<T, E>>, values: seq<T>)
    requires |results| == |values|
    requires forall i :: 0 <= i < |results| ==> results[i] == Ok(values[i])
    ensures Sequence(results) == Ok(values)
  {
    SequenceOkIff(results);
    assert AllOk(results);
    assert Sequence(results).value == values;
  }

  lemma {:induction false} SequenceAppend<T, E>(a: seq<Result<T, E>>, b: seq<Result<T, E>>)
    ensures Sequence(a).Err? ==> Sequence(a + b) == Sequence(a)
    ensures Sequence(a).Ok? && Sequence(b).Err? ==> Sequence(a + b) == Err(Sequence(b).error)
    ensures Sequence(a).Ok? && Sequence(b).Ok? ==>
              Sequence(a + b) == Ok(Sequence(a).value + Sequence(b).value)
  {
    if a == [] {
      assert a + b == b;
      assert Sequence(b).Ok? ==> [] + Sequence(b).value == Sequence(b).value;
    } else {
      assert (a + b)[1..] == a[1..] + b && (a + b)[0] == a[0];
      SequenceAppend(a[1..], b);
      if a[0].Ok? && Sequence(a[1..]).Ok? && Sequence(b).Ok? {
        var x, y, z := [a[0].value], Sequence(a[1..]).value, Sequence(b).value;
        assert (x + y) + z == x + (y + z);
      }
    }
  }

  lemma SequenceOne<T, E>(result: Result<T, E>)
    ensures Sequence([result]) == if result.Ok? then Ok([result.value]) else Err(result.error)
  {
    assert [result][1..] == [];
    if result.Ok? {
      assert [result.value] + [] == [result.value];
    }
  }

  /** One more turn of the loop. */
  lemma SequenceStep<T, E>(results: seq<Result<T, E>>, i: nat)
    requires i < |results| && Sequence(results[..i]).Ok?
    ensures results[i].Ok? ==>
              Sequence(results[..i + 1]) == Ok(Sequence(results[..i]).value + [results[i].value])
    ensures results[i].Err? ==> Sequence(results) == Err(results[i].error)
  {
    assert results[..i + 1] == results[..i] + [results[i]];
    assert results == results[..i] + results[i..];
    SequenceOne(results[i]);
    SequenceAppend(results[..i], [results[i]]);
    SequenceAppend(results[..i], results[i..]);
  }
}
