/** Building the whole list of records (`[Cls(**row) for row in reader]`)
    and drawing one (`random.choice`). */
module Batch {
  import opened Wrappers
  import opened Errors

  /** The list comprehension: rows are built in order and the first row
      that fails aborts the whole list with its error. */
  function BuildAll<Row, R>(rows: seq<Row>, build: Row -> Result<R, Error>): (r: Result<seq<R>, Error>)
    ensures r.Success? <==> forall i :: 0 <= i < |rows| ==> build(rows[i]).Success?
    ensures r.Success? ==>
      |r.value| == |rows| && forall i :: 0 <= i < |rows| ==> r.value[i] == build(rows[i]).value
    ensures r.Failure? ==>
      exists i :: 0 <= i < |rows| && build(rows[i]) == Failure(r.error)
        && forall j :: 0 <= j < i ==> build(rows[j]).Success?
  {
    if |rows| == 0 then Success([])
    else match build(rows[0])
      case Failure(e) => Failure(e)
      case Success(x) =>
        match BuildAll(rows[1..], build)
        case Failure(e) =>
          assert forall i :: 1 <= i < |rows| ==> rows[1..][i - 1] == rows[i];
          Failure(e)
        case Success(xs) => Success([x] + xs)
  }

  /** `random.choice(xs)`, the random draw being given: IndexError on an
      empty list, otherwise an element of the list. */
  function Choose<T>(xs: seq<T>, draw: nat): (r: Result<T, Error>)
    ensures r.Success? <==> |xs| > 0
    ensures r.Success? ==> r.value in xs
    ensures r.Failure? ==> r.error == EmptySequence
  {
    if |xs| == 0 then Failure(EmptySequence) else Success(xs[draw % |xs|])
  }

  /** No element is out of reach of the draw. */
  lemma ChooseReachesAll<T>(xs: seq<T>, i: nat)
    requires i < |xs|
    ensures Choose(xs, i) == Success(xs[i])
  {
    assert i % |xs| == i;
  }
}
