/** Small value types shared by every module of the dashboard model:
    nullable database columns, the outcome of a database read, and the
    JavaScript truthiness of an optional numeric prop. */
module Basics {

  /** A nullable column or an optional join (`null`/`undefined` is `None`). */
  datatype Option<T> = None | Some(value: T)

  /** `x ?? d` for a nullable value. */
  function GetOr<T>(o: Option<T>, d: T): T
  {
    match o
    case Some(v) => v
    case None => d
  }

  /** The result of one read query: the rows the query sees, or an error. */
  datatype Fetch<T> = Fetched(rows: seq<T>) | FetchFailed

  /** `if (x)` on an optional numeric prop: absent and `0` are both falsy. */
  predicate Truthy(o: Option<nat>)
  {
    o.Some? && o.value != 0
  }

  /** The results of `f` on every element, in order, when none of them is
      missing, and nothing otherwise: a loop that gives up on its first
      failure. */
  function AllSome<T, U>(xs: seq<T>, f: T -> Option<U>): (r: Option<seq<U>>)
    ensures r.Some? <==> forall i :: 0 <= i < |xs| ==> f(xs[i]).Some?
    ensures r.Some? ==> |r.value| == |xs| && forall i :: 0 <= i < |xs| ==> Some(r.value[i]) == f(xs[i])
  {
    if |xs| == 0 then Some([])
    else
      var rest := AllSome(xs[1..], f);
      assert forall i :: 1 <= i < |xs| ==> xs[i] == xs[1..][i - 1];
      match f(xs[0])
      case None => None
      case Some(y) =>
        if rest.None? then None else Some([y] + rest.value)
  }

  /** A three-way filter on a boolean column: all rows, the rows where
      it is set (`'si'`), or the rows where it is not (`'no'`). */
  datatype TriState = Todos | Si | No

  /** Whether a row whose flag is `b` passes filter `t`. */
  predicate TriAccepts(t: TriState, b: bool)
  {
    t.Todos? || b == t.Si?
  }
}
