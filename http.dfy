/** The error responses a Laravel controller of the system can answer with. */
module Http {
  import opened Wrappers

  datatype ApiError =
    /** Route-model binding found no row for the id in the URL. */
    | ModelNotFound
    /** A `$request->validate` rule failed for the named field. */
    | ValidationFailed(field: string)
    /** The controller answered `response()->json(['success' => false, ...], code)` itself. */
    | Rejected(code: int, message: string)

  /** The HTTP status the error is sent with. */
  function StatusCode(e: ApiError): int {
    match e
    case ModelNotFound => 404
    case ValidationFailed(_) => 422
    case Rejected(c, _) => c
  }

  /**
   * Route-model binding: the position of the row whose key is the id in the URL, if any.
   * `idOf` reads a row's primary key.
   */
  function BoundIndex<T>(rows: seq<T>, idOf: T -> nat, id: nat): (r: Option<nat>)
    ensures r.Some? ==> r.value < |rows| && idOf(rows[r.value]) == id
    ensures r.None? ==> forall k :: 0 <= k < |rows| ==> idOf(rows[k]) != id
  {
    if |rows| == 0 then None
    else if idOf(rows[|rows| - 1]) == id then Some(|rows| - 1)
    else BoundIndex(rows[..|rows| - 1], idOf, id)
  }
}
