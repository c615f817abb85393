/** src/utils/get-all.ts: run one getter call per id and collect the results. */
module Utils {
  import opened Wrappers

  /** `getAll(ids, getter)`: `Promise.all(ids.map(getter))`. The calls run
      concurrently in the source; only their results matter here, so the model
      evaluates them left to right. The batch resolves to the results in input
      order, or rejects as soon as one call rejects (no partial result). When
      several calls reject, the model reports the leftmost one. */
  function GetAll<T, U, E>(ids: seq<T>, getter: T -> Result<U, E>): (r: Result<seq<U>, E>)
    ensures r.Ok? <==> forall i :: 0 <= i < |ids| ==> getter(ids[i]).Ok?
    ensures r.Ok? ==> |r.value| == |ids|
    ensures r.Ok? ==> forall i :: 0 <= i < |ids| ==> r.value[i] == getter(ids[i]).value
    ensures r.Err? ==> exists i :: 0 <= i < |ids| && getter(ids[i]) == Err(r.error)
                                 && forall j :: 0 <= j < i ==> getter(ids[j]).Ok?
  {
    if ids == [] then Ok([])
    else
      match getter(ids[0])
      case Err(e) => Err(e)
      case Ok(u) =>
        match GetAll(ids[1..], getter)
        case Err(e) => Err(e)
        case Ok(us) => Ok([u] + us)
  }
}
